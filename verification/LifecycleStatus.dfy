/** What starting, stopping and destroying the process do to the domain, and when the process is up,
    told from the calls and from which of their steps worked. */
module LifecycleStatus {
  import opened ControllerState
  import opened Options
  import opened DomainModel
  import opened Lifecycle

  // ---- The domain ----

  /** Nobody owns the lease, the controller is neutral, the lifecycle is this, the rest is as it was. */
  function Emptied(d: Domain, lifecycle: LifecycleState): Domain {
    d.(lease := Lease(false, 0, 0), state := NEUTRAL, daemon := Daemon(d.daemon.backend, lifecycle, d.daemon.approved))
  }

  type LifecycleState = DomainModel.Lifecycle

  lemma RevokeOnVacant(d: Domain, op: Op)
    requires op.Revoke? && d.lease == FREE && d.state == NEUTRAL
    ensures Apply(d, op).0 == d
  {
  }

  lemma StopHostDomain(w: World)
    ensures StopHost(w).domain == (if w.host.initialized then w.domain.(lease := FREE, state := NEUTRAL) else w.domain)
    ensures StopHost(w).process == w.process && StopHost(w).host.initialized == w.host.initialized
  {
  }

  lemma StopProcessDomain(w: World, ipcStop: Option<Op>)
    requires IpcStopOk(ipcStop) && w.process.initialized == w.host.initialized
    ensures StopProcess(w, ipcStop).domain ==
            if w.process.initialized then Emptied(w.domain, LifecycleStopped) else w.domain
  {
    StopHostDomain(w);
    if w.process.initialized && ipcStop.Some? {
      RevokeOnVacant(StopHost(w).domain, ipcStop.value);
    }
  }

  lemma OpenDomain(w: World, luck: Luck)
    ensures var n := OpenDevice(w, luck).0;
            n.domain == w.domain && n.process == w.process && n.host == w.host
  {
  }

  /** Starting the host leaves the domain alone, or has emptied it if the report timer failed. */
  lemma StartHostDomain(w: World, luck: Luck)
    requires w.host.initialized
    ensures var (n, ok) := StartHost(w, luck);
            && n.process == w.process && n.host.initialized && (ok ==> n.domain == w.domain)
            && (n.domain == w.domain || n.domain == w.domain.(lease := FREE, state := NEUTRAL))
  {
    OpenDomain(w.(device := CLOSED), luck);
    var (open, ok) := OpenDevice(w.(device := CLOSED), luck);
    if ok && !luck.timer && !w.host.running {
      var host := open.host.(hidRegistered := true, outputStarted := true);
      var handling := Log(open, [Up(Output)]).(host := host);
      StopHostDomain(Log(handling, [Refused(ReportTimer)]));
    }
  }

  /** What a start makes of the domain. */
  function DomainAfterStart(w: World, luck: Luck): Domain {
    if w.process.running || !w.process.initialized || !luck.ipc then w.domain
    else if luck.platform && luck.hid && luck.timer then
      w.domain.(daemon := Daemon(w.domain.daemon.backend, LifecycleRunning, w.domain.daemon.approved))
    else Emptied(w.domain, LifecycleStopped)
  }

  lemma HostStarts(w: World, luck: Luck)
    requires Inv(w) && w.process.initialized && !w.process.running
    ensures var (n, ok) := StartHost(Served(w), luck);
            && ok == (luck.platform && luck.hid && luck.timer)
            && n.process == Served(w).process && n.host.initialized
            && (ok ==> n.domain == w.domain)
            && Emptied(n.domain, LifecycleStopped) == Emptied(w.domain, LifecycleStopped)
  {
    StartHostDomain(Served(w), luck);
    ServedIsDown(w);
    StartHostKeeps(Served(w), luck, [Ipc]);
  }

  lemma StartDomain(w: World, luck: Luck, ipcStop: Option<Op>)
    requires Inv(w) && IpcStopOk(ipcStop)
    ensures StartProcess(w, luck, ipcStop).0.domain == DomainAfterStart(w, luck)
  {
    if w.process.initialized && !w.process.running && luck.ipc {
      HostStarts(w, luck);
      StopProcessDomain(StartHost(Served(w), luck).0, ipcStop);
    }
  }

  /** What an event makes of the domain. */
  function DomainAfter(w: World, e: Event): Domain {
    match e
    case Start(luck, _) => DomainAfterStart(w, luck)
    case Stop(_) => if w.process.initialized then Emptied(w.domain, LifecycleStopped) else w.domain
    case Destroy(_) => if w.process.initialized then Emptied(w.domain, LifecycleStopped) else w.domain
    case NeutralNow =>
      if w.process.initialized then w.domain.(lease := Lease(false, 0, 0), state := NEUTRAL) else w.domain
    case Domain(op) => Apply(w.domain, op).0
  }

  lemma EventDomain(w: World, e: Event)
    requires Inv(w) && Enabled(e)
    ensures Step(w, e).domain == DomainAfter(w, e)
  {
    match e
    case Start(luck, ipcStop) => StartDomain(w, luck, ipcStop);
    case Stop(ipcStop) => StopProcessDomain(w, ipcStop);
    case Destroy(ipcStop) => DestroyDomain(w, ipcStop);
    case _ =>
  }

  lemma DestroyDomain(w: World, ipcStop: Option<Op>)
    requires Inv(w) && IpcStopOk(ipcStop)
    ensures DestroyProcess(w, ipcStop).domain ==
            if w.process.initialized then Emptied(w.domain, LifecycleStopped) else w.domain
  {
    StopKeeps(w, ipcStop);
    StopProcessDomain(w, ipcStop);
    StopHostDomain(StopProcess(w, ipcStop));
  }

  /** In every run: a start that works changes nothing in the domain but the lifecycle, and one that cannot
      even serve changes nothing; a start that fails later, a stop and a destruction leave the lease free,
      the controller neutral and the lifecycle stopped; the neutral call frees the lease and makes the
      controller neutral, and nothing else; a destroyed process changes nothing any more. */
  lemma DomainIsTold(image: seq<U8>, es: seq<Event>, e: Event)
    requires AllEnabled(es) && Enabled(e)
    ensures Step(Run(image, es), e).domain == DomainAfter(Run(image, es), e)
  {
    InvRun(image, es);
    EventDomain(Run(image, es), e);
  }

  // ---- When the process is up ----

  predicate Alive(es: seq<Event>) {
    forall i :: 0 <= i < |es| ==> !es[i].Destroy?
  }

  /** The last start that worked has not been stopped. */
  predicate UpAfter(es: seq<Event>) {
    es != [] &&
    var before := es[..|es| - 1];
    match es[|es| - 1]
    case Start(luck, _) => UpAfter(before) || (Alive(before) && luck == Luck(true, true, true, true))
    case Stop(_) => false
    case Destroy(_) => false
    case _ => UpAfter(before)
  }

  /** The operation leaves the lifecycle to the process. */
  predicate SparesLifecycle(e: Event) {
    e.Domain? ==> !e.op.SetDaemon? && !e.op.SetLifecycle?
  }

  lemma SparedLifecycle(d: Domain, op: Op)
    requires !op.SetDaemon? && !op.SetLifecycle?
    ensures Apply(d, op).0.daemon.lifecycle == d.daemon.lifecycle
  {
  }

  predicate UpTold(es: seq<Event>, w: World) {
    && w.process.initialized == Alive(es) && w.process.running == UpAfter(es)
    && w.domain.daemon.lifecycle == if UpAfter(es) then LifecycleRunning else LifecycleStopped
  }

  lemma AliveSnoc(es: seq<Event>, e: Event)
    ensures Alive(es + [e]) <==> Alive(es) && !e.Destroy?
  {
    if Alive(es + [e]) {
      forall i | 0 <= i < |es| ensures !es[i].Destroy? {
        assert (es + [e])[i] == es[i];
      }
      assert (es + [e])[|es|] == e;
    }
  }

  lemma UpStep(es: seq<Event>, w: World, e: Event)
    requires Inv(w) && UpTold(es, w) && Enabled(e) && SparesLifecycle(e)
    ensures UpTold(es + [e], Step(w, e))
  {
    assert (es + [e])[..|es|] == es;
    AliveSnoc(es, e);
    EventDomain(w, e);
    match e
    case Start(luck, ipcStop) =>
      StartKeeps(w, luck, ipcStop);
      StartInitialized(w, luck, ipcStop);
    case Stop(ipcStop) => StopKeeps(w, ipcStop);
    case Destroy(ipcStop) =>
      DestroyKeeps(w, ipcStop);
      InvIsDown(DestroyProcess(w, ipcStop));
    case Domain(op) => SparedLifecycle(w.domain, op);
    case NeutralNow =>
  }

  lemma InvIsDown(w: World)
    requires Inv(w) && !w.process.initialized
    ensures !w.process.running
  {
  }

  lemma StartInitialized(w: World, luck: Luck, ipcStop: Option<Op>)
    requires Inv(w)
    ensures StartProcess(w, luck, ipcStop).0.process.initialized == w.process.initialized
  {
    if w.process.initialized && !w.process.running && luck.ipc {
      StartHostDomain(Served(w), luck);
    }
  }

  /** In every run in which nothing else sets the lifecycle: the process is up exactly from a start in which
      every step worked to the next stop, a destroyed one never again, and the domain's lifecycle says
      which. */
  lemma {:induction false} LifecycleIsTold(image: seq<U8>, es: seq<Event>)
    requires AllEnabled(es) && forall i :: 0 <= i < |es| ==> SparesLifecycle(es[i])
    ensures UpTold(es, Run(image, es))
    decreases |es|
  {
    if es != [] {
      LifecycleIsTold(image, es[..|es| - 1]);
      InvRun(image, es[..|es| - 1]);
      UpStep(es[..|es| - 1], Run(image, es[..|es| - 1]), es[|es| - 1]);
      assert es == es[..|es| - 1] + [es[|es| - 1]];
    }
  }
}
