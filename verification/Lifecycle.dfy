/** Starting and stopping the daemon process, the runtime host inside it and the Bluetooth
    device inside that, with any step failing: what is brought up, taken down and left behind. */
module Lifecycle {
  import opened ControllerState
  import opened Options
  import opened DomainModel

  // ---- The calls to the backends ----

  datatype Resource = Ipc | Platform | Hid | Output | ReportTimer

  /** A start that worked, a start that failed, and a stop. */
  datatype Call = Up(r: Resource) | Refused(r: Resource) | Down(r: Resource)

  /** What is up after a trace of calls, innermost last; None if a call took down something that
      was not up, or not innermost. */
  function Stack(trace: seq<Call>): Option<seq<Resource>> {
    if trace == [] then Some([]) else
    var before := Stack(trace[..|trace| - 1]);
    if before.None? then None else
    var up := before.value;
    match trace[|trace| - 1]
    case Up(r) => Some(up + [r])
    case Refused(_) => Some(up)
    case Down(r) => if up != [] && up[|up| - 1] == r then Some(up[..|up| - 1]) else None
  }

  // ---- The objects ----

  datatype Device = Device(platformStarted: bool, hidRegistered: bool)

  const CLOSED := Device(false, false)

  datatype Host = Host(initialized: bool, running: bool, hidRegistered: bool, outputStarted: bool, timerStarted: bool)

  const BLANK_HOST := Host(false, false, false, false, false)
  const READY_HOST := BLANK_HOST.(initialized := true)

  datatype Process = Process(initialized: bool, running: bool, ipcStarted: bool)

  datatype World = World(process: Process, host: Host, device: Device, domain: Domain, trace: seq<Call>)

  function Init(image: seq<U8>): World {
    World(Process(true, false, false), READY_HOST, CLOSED, Fresh(image), [])
  }

  /** Which starts succeed. */
  datatype Luck = Luck(ipc: bool, platform: bool, hid: bool, timer: bool)

  datatype Event =
    | Start(luck: Luck, ipcStop: Option<Op>)
    | Stop(ipcStop: Option<Op>)
    | Destroy(ipcStop: Option<Op>)
    | NeutralNow
    | Domain(op: Op)

  function Log(w: World, calls: seq<Call>): World {
    w.(trace := w.trace + calls)
  }

  // ---- Device ----

  function OpenDevice(w: World, luck: Luck): (World, bool) {
    if w.device.hidRegistered then (w, true)
    else if !w.device.platformStarted && !luck.platform then (Log(w, [Refused(Platform)]), false)
    else
      var started := if w.device.platformStarted then w else Log(w, [Up(Platform)]);
      if luck.hid then (Log(started, [Up(Hid)]).(device := Device(true, true)), true)
      else (Log(started, [Refused(Hid), Down(Platform)]).(device := CLOSED), false)
  }

  function CloseDevice(w: World): World {
    var hid := if w.device.hidRegistered then [Down(Hid)] else [];
    var platform := if w.device.platformStarted then [Down(Platform)] else [];
    Log(w, hid + platform).(device := CLOSED)
  }

  // ---- Runtime host ----

  function Vacate(w: World): World {
    w.(domain := Apply(w.domain, Op.Revoke(Shutdown, 0)).0)
  }

  /** Registering initialises the device object first. */
  function StartHost(w: World, luck: Luck): (World, bool) {
    if !w.host.initialized then (w, false)
    else if w.host.running then (w, true)
    else
      var (registered, ok) := OpenDevice(w.(device := CLOSED), luck);
      if !ok then (registered, false) else StartHandling(registered, luck)
  }

  /** With the device registered: the output handler, then the report timer. */
  function StartHandling(w: World, luck: Luck): (World, bool) {
    var host := w.host.(hidRegistered := true, outputStarted := true);
    var handling := Log(w, [Up(Output)]).(host := host);
    if luck.timer then
      (Log(handling, [Up(ReportTimer)]).(host := host.(timerStarted := true, running := true)), true)
    else (StopHost(Log(handling, [Refused(ReportTimer)])), false)
  }

  function StopHost(w: World): World {
    if !w.host.initialized then w
    else
      var vacated := Vacate(w);
      var silent := if w.host.timerStarted then Log(vacated, [Down(ReportTimer)]) else vacated;
      var deaf := if w.host.outputStarted then Log(silent, [Down(Output)]) else silent;
      var closed := if w.host.hidRegistered then CloseDevice(deaf) else deaf;
      closed.(host := READY_HOST)
  }

  // ---- Process ----

  /** What stopping the IPC runner does to the domain: nothing, or a revocation. */
  function StopIpc(w: World, ipcStop: Option<Op>): World {
    if !w.process.ipcStarted then w
    else
      var stopped := Log(w, [Down(Ipc)]);
      if ipcStop.Some? then stopped.(domain := Apply(w.domain, ipcStop.value).0) else stopped
  }

  function StopProcess(w: World, ipcStop: Option<Op>): World {
    if !w.process.initialized then w
    else
      var stopped := StopIpc(StopHost(w), ipcStop);
      stopped.(process := Process(true, false, false),
               domain := Apply(stopped.domain, SetLifecycle(LifecycleStopped)).0)
  }

  function StartProcess(w: World, luck: Luck, ipcStop: Option<Op>): (World, bool) {
    if !w.process.initialized then (w, false)
    else if w.process.running then (w, true)
    else if !luck.ipc then (Log(w, [Refused(Ipc)]), false)
    else
      var served := Log(w, [Up(Ipc)]).(process := w.process.(ipcStarted := true));
      var (started, ok) := StartHost(served, luck);
      if !ok then (StopProcess(started, ipcStop), false)
      else (started.(process := started.process.(running := true),
                     domain := Apply(started.domain, SetLifecycle(LifecycleRunning)).0), true)
  }

  function DestroyProcess(w: World, ipcStop: Option<Op>): World {
    var stopped := StopHost(StopProcess(w, ipcStop));
    stopped.(host := BLANK_HOST, process := stopped.process.(initialized := false))
  }

  // ---- Runs ----

  function Step(w: World, e: Event): World {
    match e
    case Start(luck, ipcStop) => StartProcess(w, luck, ipcStop).0
    case Stop(ipcStop) => StopProcess(w, ipcStop)
    case Destroy(ipcStop) => DestroyProcess(w, ipcStop)
    case NeutralNow => if w.process.initialized && w.host.initialized then Vacate(w) else w
    case Domain(op) => w.(domain := Apply(w.domain, op).0)
  }

  predicate Enabled(e: Event) {
    (e.Start? || e.Stop? || e.Destroy?) && e.ipcStop.Some? ==> e.ipcStop.value.Revoke?
  }

  function Run(image: seq<U8>, es: seq<Event>): World {
    if es == [] then Init(image) else Step(Run(image, es[..|es| - 1]), es[|es| - 1])
  }

  predicate AllEnabled(es: seq<Event>) {
    forall i :: 0 <= i < |es| ==> Enabled(es[i])
  }

  // ---- What every run keeps ----

  const ALL_UP := [Ipc, Platform, Hid, Output, ReportTimer]

  /** Everything is up, or nothing is. */
  predicate Inv(w: World) {
    && w.process.running == w.process.ipcStarted == w.host.running
    && w.process.running == w.host.hidRegistered == w.host.outputStarted == w.host.timerStarted
    && w.device == Device(w.process.running, w.process.running)
    && w.process.initialized == w.host.initialized
    && (w.process.running ==> w.process.initialized)
    && Stack(w.trace) == Some(if w.process.running then ALL_UP else [])
  }

  lemma StackUp(t: seq<Call>, r: Resource)
    requires Stack(t).Some?
    ensures Stack(t + [Up(r)]) == Some(Stack(t).value + [r]) && Stack(t + [Refused(r)]) == Stack(t)
  {
    assert (t + [Up(r)])[..|t|] == t && (t + [Refused(r)])[..|t|] == t;
  }

  lemma StackDown(t: seq<Call>, r: Resource, up: seq<Resource>)
    requires Stack(t) == Some(up + [r])
    ensures Stack(t + [Down(r)]) == Some(up)
  {
    assert (t + [Down(r)])[..|t|] == t;
    assert (up + [r])[..|up|] == up;
  }

  lemma OpenKeeps(w: World, luck: Luck, up: seq<Resource>)
    requires w.device == CLOSED && Stack(w.trace) == Some(up)
    ensures var (n, ok) := OpenDevice(w, luck);
            && ok == (luck.platform && luck.hid)
            && n == w.(device := if ok then Device(true, true) else CLOSED, trace := n.trace)
            && Stack(n.trace) == Some(if ok then up + [Platform, Hid] else up)
  {
    StackUp(w.trace, Platform);
    if luck.platform {
      var t := w.trace + [Up(Platform)];
      StackUp(t, Hid);
      if luck.hid {
        assert up + [Platform] + [Hid] == up + [Platform, Hid];
      } else {
        StackDown(t + [Refused(Hid)], Platform, up);
        assert t + [Refused(Hid)] + [Down(Platform)] == t + [Refused(Hid), Down(Platform)];
      }
    }
  }

  lemma CloseKeeps(w: World, up: seq<Resource>)
    requires w.device == Device(true, true) && Stack(w.trace) == Some(up + [Platform, Hid])
    ensures CloseDevice(w) == w.(device := CLOSED, trace := CloseDevice(w).trace) &&
        Stack(CloseDevice(w).trace) == Some(up)
  {
    assert up + [Platform, Hid] == up + [Platform] + [Hid];
    StackDown(w.trace, Hid, up + [Platform]);
    StackDown(w.trace + [Down(Hid)], Platform, up);
    assert w.trace + [Down(Hid)] + [Down(Platform)] == w.trace + ([Down(Hid)] + [Down(Platform)]);
  }

  /** The host is up to its output handler or, if `timed`, up altogether. */
  predicate HostUp(w: World, up: seq<Resource>, timed: bool) {
    && w.host.initialized && w.host.hidRegistered && w.host.outputStarted && w.host.timerStarted == timed
    && w.device == Device(true, true)
    && Stack(w.trace) == Some(up + [Platform, Hid] + if timed then [Output, ReportTimer] else [Output])
  }

  predicate HostDown(w: World, up: seq<Resource>) {
    w.device == CLOSED && !w.host.running && !w.host.hidRegistered && !w.host.outputStarted && !w.host.timerStarted &&
        Stack(w.trace) == Some(up)
  }

  /** The parts of the world a host step leaves alone. */
  predicate SameProcess(w: World, n: World) {
    n.process == w.process && n.host.initialized == w.host.initialized
  }

  lemma StopHostKeeps(w: World, up: seq<Resource>, timed: bool)
    requires HostUp(w, up, timed)
    ensures HostDown(StopHost(w), up) && SameProcess(w, StopHost(w)) && Vacant(StopHost(w).domain)
  {
    var t := if timed then w.trace + [Down(ReportTimer)] else w.trace;
    SilentTrace(w.trace, up + [Platform, Hid], timed);
    CloseKeeps(Vacate(w).(trace := t + [Down(Output)]), up);
  }

  lemma SilentTrace(trace: seq<Call>, outer: seq<Resource>, timed: bool)
    requires Stack(trace) == Some(outer + if timed then [Output, ReportTimer] else [Output])
    ensures var t := if timed then trace + [Down(ReportTimer)] else trace;
            Stack(t + [Down(Output)]) == Some(outer)
  {
    var t := if timed then trace + [Down(ReportTimer)] else trace;
    assert outer + [Output, ReportTimer] == outer + [Output] + [ReportTimer];
    if timed {
      StackDown(trace, ReportTimer, outer + [Output]);
    }
    StackDown(t, Output, outer);
  }

  lemma StopHostIdle(w: World, up: seq<Resource>)
    requires HostDown(w, up)
    ensures HostDown(StopHost(w), up) && SameProcess(w, StopHost(w)) &&
        (w.host.initialized ==> Vacant(StopHost(w).domain))
  {
  }

  lemma StartHostKeeps(w: World, luck: Luck, up: seq<Resource>)
    requires HostDown(w, up) && w.host.initialized
    ensures var (n, ok) := StartHost(w, luck);
            && SameProcess(w, n) && ok == (luck.platform && luck.hid && luck.timer)
            && if ok then HostUp(n, up, true) && n.host.running else HostDown(n, up)
  {
    OpenKeeps(w, luck, up);
    var (lit, ok) := OpenDevice(w, luck);
    if ok {
      var outer := up + [Platform, Hid];
      StackUp(lit.trace, Output);
      StackUp(lit.trace + [Up(Output)], ReportTimer);
      assert outer + [Output] + [ReportTimer] == outer + [Output, ReportTimer];
      var handling := Log(lit, [Up(Output)]).(host := lit.host.(hidRegistered := true, outputStarted := true));
      if !luck.timer {
        StopHostKeeps(Log(handling, [Refused(ReportTimer)]), up, false);
      }
    }
  }

  predicate IpcStopOk(ipcStop: Option<Op>) {
    ipcStop.Some? ==> ipcStop.value.Revoke?
  }

  lemma StopIpcKeeps(w: World, ipcStop: Option<Op>)
    requires HostDown(w, if w.process.ipcStarted then [Ipc] else []) && IpcStopOk(ipcStop)
    ensures var n := StopIpc(w, ipcStop);
            HostDown(n, []) && n.host == w.host && n.process == w.process && (Vacant(w.domain) ==> Vacant(n.domain))
  {
    if w.process.ipcStarted {
      assert [Ipc] == [] + [Ipc];
      StackDown(w.trace, Ipc, []);
    }
  }

  /** The process is up, or down to its IPC server. */
  lemma StopProcessKeeps(w: World, ipcStop: Option<Op>)
    requires IpcStopOk(ipcStop) && w.process.initialized && w.host.initialized
    requires var up := if w.process.ipcStarted then [Ipc] else []; HostUp(w, up, true) || HostDown(w, up)
    ensures Inv(StopProcess(w, ipcStop)) && !StopProcess(w, ipcStop).process.running &&
        Vacant(StopProcess(w, ipcStop).domain)
  {
    var up := if w.process.ipcStarted then [Ipc] else [];
    if HostUp(w, up, true) {
      StopHostKeeps(w, up, true);
    } else {
      StopHostIdle(w, up);
    }
    StopIpcKeeps(StopHost(w), ipcStop);
  }

  lemma InvIsUp(w: World)
    requires Inv(w)
    ensures w.process.running ==> HostUp(w, [Ipc], true)
    ensures !w.process.running ==> HostDown(w, [])
  {
    assert [Ipc] + [Platform, Hid] + [Output, ReportTimer] == ALL_UP;
  }

  lemma StartKeeps(w: World, luck: Luck, ipcStop: Option<Op>)
    requires Inv(w) && IpcStopOk(ipcStop)
    ensures var (n, ok) := StartProcess(w, luck, ipcStop);
            && Inv(n) && n.process.running == ok
            && ok == (w.process.running || (w.process.initialized && luck == Luck(true, true, true, true)))
  {
    if w.process.initialized && !w.process.running {
      if !luck.ipc {
        IpcRefused(w);
      } else {
        StartServed(w, luck, ipcStop);
      }
    }
  }

  lemma IpcRefused(w: World)
    requires Inv(w) && !w.process.running
    ensures Inv(Log(w, [Refused(Ipc)]))
  {
    StackUp(w.trace, Ipc);
  }

  /** The world once the IPC server is up. */
  function Served(w: World): World {
    Log(w, [Up(Ipc)]).(process := w.process.(ipcStarted := true))
  }

  lemma ServedIsDown(w: World)
    requires Inv(w) && !w.process.running
    ensures HostDown(Served(w), [Ipc])
  {
    InvIsUp(w);
    StackUp(w.trace, Ipc);
    assert [] + [Ipc] == [Ipc];
  }

  lemma StartServed(w: World, luck: Luck, ipcStop: Option<Op>)
    requires Inv(w) && IpcStopOk(ipcStop) && w.process.initialized && !w.process.running && luck.ipc
    ensures var (n, ok) := StartProcess(w, luck, ipcStop);
            Inv(n) && n.process.running == ok && ok == (luck.platform && luck.hid && luck.timer)
  {
    ServedIsDown(w);
    StartHostKeeps(Served(w), luck, [Ipc]);
    var (started, ok) := StartHost(Served(w), luck);
    if ok {
      StartedIsUp(started);
    } else {
      StopProcessKeeps(started, ipcStop);
    }
  }

  lemma StartedIsUp(w: World)
    requires HostUp(w, [Ipc], true) && w.host.running && w.process.initialized && w.process.ipcStarted
    ensures Inv(w.(process := w.process.(running := true), domain := Apply(w.domain, SetLifecycle(LifecycleRunning)).0))
  {
    assert [Ipc] + [Platform, Hid] + [Output, ReportTimer] == ALL_UP;
  }

  lemma StopKeeps(w: World, ipcStop: Option<Op>)
    requires Inv(w) && IpcStopOk(ipcStop)
    ensures var n := StopProcess(w, ipcStop);
            Inv(n) && !n.process.running && (w.process.initialized ==> Vacant(n.domain)) &&
                n.process.initialized == w.process.initialized
  {
    InvIsUp(w);
    if w.process.initialized {
      StopProcessKeeps(w, ipcStop);
    }
  }

  lemma DestroyKeeps(w: World, ipcStop: Option<Op>)
    requires Inv(w) && IpcStopOk(ipcStop)
    ensures Inv(DestroyProcess(w, ipcStop)) && !DestroyProcess(w, ipcStop).process.initialized
  {
    StopKeeps(w, ipcStop);
    InvIsUp(StopProcess(w, ipcStop));
    StopHostIdle(StopProcess(w, ipcStop), []);
  }

  lemma InvStep(w: World, e: Event)
    requires Inv(w) && Enabled(e)
    ensures Inv(Step(w, e))
  {
    match e
    case Start(luck, ipcStop) => StartKeeps(w, luck, ipcStop);
    case Stop(ipcStop) => StopKeeps(w, ipcStop);
    case Destroy(ipcStop) => DestroyKeeps(w, ipcStop);
    case _ =>
  }

  lemma {:induction false} InvRun(image: seq<U8>, es: seq<Event>)
    requires AllEnabled(es)
    ensures Inv(Run(image, es))
    decreases |es|
  {
    if es != [] {
      InvRun(image, es[..|es| - 1]);
      InvStep(Run(image, es[..|es| - 1]), es[|es| - 1]);
    }
  }

  lemma {:induction false} EveryPrefixNests(trace: seq<Call>, n: nat)
    requires Stack(trace).Some? && n <= |trace|
    ensures Stack(trace[..n]).Some?
    decreases |trace|
  {
    if n < |trace| {
      EveryPrefixNests(trace[..|trace| - 1], n);
      assert trace[..|trace| - 1][..n] == trace[..n];
    } else {
      assert trace[..n] == trace;
    }
  }

  /** For every sequence of start, stop and destroy calls with any step failing: at every moment
      the calls are well nested, so that everything stopped was up and innermost; afterwards
      everything is up, in order, or nothing is. */
  lemma CallsAreNested(image: seq<U8>, es: seq<Event>, n: nat)
    requires AllEnabled(es) && n <= |Run(image, es).trace|
    ensures Stack(Run(image, es).trace[..n]).Some?
    ensures Stack(Run(image, es).trace) == Some(if Run(image, es).process.running then ALL_UP else [])
  {
    InvRun(image, es);
    EveryPrefixNests(Run(image, es).trace, n);
  }

  /** A start that reports failure leaves nothing up; one that reports success leaves all up, and
      it succeeds exactly if already running or every step does. */
  lemma StartIsAllOrNothing(image: seq<U8>, es: seq<Event>, luck: Luck, ipcStop: Option<Op>)
    requires AllEnabled(es) && IpcStopOk(ipcStop)
    ensures var w := Run(image, es);
            var (n, ok) := StartProcess(w, luck, ipcStop);
            && Stack(n.trace) == Some(if ok then ALL_UP else [])
            && ok == (w.process.running || (w.process.initialized && luck == Luck(true, true, true, true)))
  {
    InvRun(image, es);
    StartKeeps(Run(image, es), luck, ipcStop);
  }

  /** Stopping leaves nothing up, and the domain without an owner and neutral, whatever the IPC
      runner revoked on its way down. */
  lemma StopLeavesNothing(image: seq<U8>, es: seq<Event>, ipcStop: Option<Op>)
    requires AllEnabled(es) && IpcStopOk(ipcStop)
    ensures var w := Run(image, es);
            var n := StopProcess(w, ipcStop);
            Stack(n.trace) == Some([]) &&
                (w.process.initialized ==> n.domain.lease == FREE && n.domain.state == NEUTRAL)
  {
    InvRun(image, es);
    StopKeeps(Run(image, es), ipcStop);
  }
}
