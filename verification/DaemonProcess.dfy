/** The daemon process, the runtime host and the device as objects, proved against the
    lifecycle. Whether a backend's start succeeds is a parameter; the journal records the calls
    made to the backends. */
module DaemonProcess {
  import opened ControllerState
  import opened Options
  import opened DomainModel
  import opened DomainObject
  import opened Lifecycle

  class Journal {
    ghost var calls: seq<Call>

    constructor ()
      ensures calls == []
    {
      calls := [];
    }

    method Note(ghost c: Call)
      modifies this
      ensures calls == old(calls) + [c]
    {
      calls := calls + [c];
    }
  }

  class Bluetooth {
    const journal: Journal
    var platformStarted: bool
    var hidRegistered: bool

    ghost function State(): Device
      reads this
    {
      Device(platformStarted, hidRegistered)
    }

    constructor (journal: Journal)
      ensures this.journal == journal && State() == CLOSED
    {
      this.journal := journal;
      platformStarted, hidRegistered := false, false;
    }

    method Reset()
      modifies this
      ensures State() == CLOSED
    {
      platformStarted, hidRegistered := false, false;
    }

    method Open(luck: Luck, ghost w: World) returns (ok: bool)
      requires w.device == State() && w.trace == journal.calls
      modifies this, journal
      ensures (w.(device := State(), trace := journal.calls), ok) == OpenDevice(w, luck)
    {
      if hidRegistered {
        return true;
      }
      if !platformStarted {
        if !luck.platform {
          journal.Note(Refused(Platform));
          return false;
        }
        journal.Note(Up(Platform));
        platformStarted := true;
      }
      if !luck.hid {
        journal.Note(Refused(Hid));
        journal.Note(Down(Platform));
        platformStarted := false;
        assert forall t: seq<Call> :: t + [Refused(Hid)] + [Down(Platform)] == t + [Refused(Hid), Down(Platform)];
        return false;
      }
      journal.Note(Up(Hid));
      hidRegistered := true;
      return true;
    }

    method Close(ghost w: World)
      requires w.device == State() && w.trace == journal.calls
      modifies this, journal
      ensures w.(device := State(), trace := journal.calls) == CloseDevice(w)
    {
      if hidRegistered {
        journal.Note(Down(Hid));
        hidRegistered := false;
      }
      if platformStarted {
        journal.Note(Down(Platform));
        platformStarted := false;
      }
    }
  }

  datatype HostResult = HostOk | HostPending | HostInvalid | HostBackendFailed

  class RuntimeHost {
    const app: App
    const device: Bluetooth
    const journal: Journal
    var initialized: bool
    var running: bool
    var hidRegistered: bool
    var outputStarted: bool
    var timerStarted: bool

    ghost predicate Valid()
      reads app, app.lock, app.switchboard.flash
    {
      app.Valid() && device.journal == journal
    }

    ghost function State(): Host
      reads this
    {
      Host(initialized, running, hidRegistered, outputStarted, timerStarted)
    }

    ghost function In(p: Process): World
      reads this, device, journal, app, app.lease, app.switchboard, app.switchboard.flash, app.switchboard.flash.data
    {
      World(p, State(), device.State(), app.Value(), journal.calls)
    }

    constructor (app: App)
      requires app.Valid() && app.Value() == Fresh(app.switchboard.flash.data[..])
      ensures Valid() && fresh(device) && fresh(journal) && this.app == app
      ensures State() == READY_HOST && device.State() == CLOSED && journal.calls == []
    {
      this.app := app;
      var calls := new Journal();
      journal := calls;
      device := new Bluetooth(calls);
      initialized, running, hidRegistered, outputStarted, timerStarted := true, false, false, false, false;
    }

    method Stop(ghost p: Process)
      requires Valid()
      modifies this, device, journal, app`state, app.lock, app.lease
      ensures Valid() && In(p) == StopHost(old(In(p)))
    {
      if !initialized {
        return;
      }
      var code := app.Revoke(Shutdown, 0);
      if timerStarted {
        journal.Note(Down(ReportTimer));
        timerStarted := false;
      }
      if outputStarted {
        journal.Note(Down(Output));
        outputStarted := false;
      }
      if hidRegistered {
        device.Close(In(p));
        hidRegistered := false;
      }
      running := false;
    }

    /** Stores the neutral state, then asks the running report timer to send it: `sendResult` is
        what that call returns, if it is made. */
    method SendNeutralNow(sendResult: int, ghost p: Process) returns (result: HostResult)
      requires Valid()
      modifies app`state, app.lock, app.lease
      ensures Valid() && In(p) == if initialized then Vacate(old(In(p))) else old(In(p))
      ensures result == if !initialized then HostInvalid
                        else if !timerStarted || sendResult == 0 then HostOk
                        else if sendResult > 0 then HostPending else HostBackendFailed
    {
      if !initialized {
        return HostInvalid;
      }
      var code := app.Revoke(Shutdown, 0);
      if !timerStarted {
        return HostOk;
      }
      if sendResult > 0 {
        return HostPending;
      }
      return if sendResult != 0 then HostBackendFailed else HostOk;
    }

    method Destroy(ghost p: Process)
      requires Valid()
      modifies this, device, journal, app`state, app.lock, app.lease
      ensures Valid() && In(p) == StopHost(old(In(p))).(host := BLANK_HOST)
    {
      Stop(p);
      initialized, running, hidRegistered, outputStarted, timerStarted := false, false, false, false, false;
    }

    method Start(luck: Luck, ghost p: Process) returns (ok: bool)
      requires Valid()
      modifies this, device, journal, app`state, app.lock, app.lease
      ensures Valid() && (In(p), ok) == StartHost(old(In(p)), luck)
    {
      if !initialized {
        return false;
      }
      if running {
        return true;
      }
      device.Reset();
      ok := device.Open(luck, In(p));
      if !ok {
        return false;
      }
      ok := StartHandling(luck, p);
    }

    method StartHandling(luck: Luck, ghost p: Process) returns (ok: bool)
      requires Valid() && initialized
      modifies this, device, journal, app`state, app.lock, app.lease
      ensures Valid() && (In(p), ok) == Lifecycle.StartHandling(old(In(p)), luck)
    {
      hidRegistered := true;
      journal.Note(Up(Output));
      outputStarted := true;
      if !luck.timer {
        journal.Note(Refused(ReportTimer));
        Stop(p);
        return false;
      }
      journal.Note(Up(ReportTimer));
      timerStarted := true;
      running := true;
      return true;
    }
  }

  class Daemon {
    const host: RuntimeHost
    var initialized: bool
    var running: bool
    var ipcStarted: bool

    ghost predicate Valid()
      reads this, host.app, host.app.lock, host.app.switchboard.flash
    {
      host.Valid()
    }

    ghost function Flags(): Process
      reads this
    {
      Process(initialized, running, ipcStarted)
    }

    ghost function State(): World
      reads this, host, host.device, host.journal, host.app, host.app.lease, host.app.switchboard,
          host.app.switchboard.flash, host.app.switchboard.flash.data
    {
      host.In(Flags())
    }

    constructor (app: App)
      requires app.Valid() && app.Value() == Fresh(app.switchboard.flash.data[..])
      ensures Valid() && fresh(host) && host.app == app
      ensures State() == Init(app.switchboard.flash.data[..])
    {
      host := new RuntimeHost(app);
      initialized, running, ipcStarted := true, false, false;
    }

    /** Stopping the IPC runner revokes what its connection holds, or everything. */
    method Stop(revokes: bool, reason: Reason, client: U32)
      requires Valid()
      modifies this, host, host.device, host.journal, host.app`state, host.app`daemon, host.app.lock, host.app.lease
      ensures Valid()
      ensures State() == StopProcess(old(State()), if revokes then Some(Op.Revoke(reason, client)) else None)
    {
      if !initialized {
        return;
      }
      host.Stop(Flags());
      if ipcStarted {
        if revokes {
          var code := host.app.Revoke(reason, client);
        }
        host.journal.Note(Down(Ipc));
        ipcStarted := false;
      }
      host.app.SetDaemonLifecycle(LifecycleStopped);
      running := false;
    }

    method SendNeutralNow(sendResult: int) returns (result: HostResult)
      requires Valid()
      modifies host.app`state, host.app.lock, host.app.lease
      ensures Valid()
      ensures initialized == host.initialized ==> State() == Step(old(State()), NeutralNow)
      ensures !initialized ==> result == HostInvalid && State() == old(State())
    {
      if !initialized {
        return HostInvalid;
      }
      result := host.SendNeutralNow(sendResult, Flags());
    }

    method Start(luck: Luck, revokes: bool, reason: Reason, client: U32) returns (ok: bool)
      requires Valid()
      modifies this, host, host.device, host.journal, host.app`state, host.app`daemon, host.app.lock, host.app.lease
      ensures Valid()
      ensures var ipcStop := if revokes then Some(Op.Revoke(reason, client)) else None;
              (State(), ok) == StartProcess(old(State()), luck, ipcStop)
    {
      if !initialized {
        return false;
      }
      if running {
        return true;
      }
      if !luck.ipc {
        host.journal.Note(Refused(Ipc));
        return false;
      }
      host.journal.Note(Up(Ipc));
      ipcStarted := true;
      ok := host.Start(luck, Flags());
      if !ok {
        Stop(revokes, reason, client);
        return false;
      }
      host.app.SetDaemonLifecycle(LifecycleRunning);
      running := true;
      return true;
    }

    method Destroy(revokes: bool, reason: Reason, client: U32)
      requires Valid()
      modifies this, host, host.device, host.journal, host.app`state, host.app`daemon, host.app.lock, host.app.lease
      ensures Valid()
      ensures State() == DestroyProcess(old(State()), if revokes then Some(Op.Revoke(reason, client)) else None)
    {
      Stop(revokes, reason, client);
      host.Destroy(Flags());
      initialized := false;
    }
  }
}
