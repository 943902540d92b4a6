/** Where each event takes the shutdown: what sets and what clears every flag, what a disconnect call
    leads to, and what the events of a run say about it. */
module ShutdownPaths {
  import opened Shutdown

  // ---- Causes, told from the runner and the event ----

  /** The callback with its neutral report settled, or the can-send event that was waited for, with
      the report timer still running: the disconnect port is called. */
  predicate CallsDisconnect(r: Runner, e: Event) {
    && r.timers.reportRunning
    && ((e.Callback? && e.neutral != NeutralLater) || (e.CanSend? && r.flow.neutralPending))
  }

  /** The same with the report timer stopped: there is nothing to disconnect. */
  predicate NothingToDisconnect(r: Runner, e: Event) {
    && !r.timers.reportRunning
    && ((e.Callback? && e.neutral != NeutralLater) || (e.CanSend? && r.timers.ready && r.flow.neutralPending))
  }

  /** The call failed, or the connection was closed before it returned. */
  predicate Over(d: Disconnect) {
    !d.ok || d.closesAtOnce
  }

  /** The connection is reported closed, or the disconnect takes too long. */
  predicate WaitEnds(r: Runner, e: Event) {
    || (e.Closed? && r.timers.ready && (r.flow.neutralPending || r.flow.disconnectPending))
    || (e.Timeout? && r.flow.disconnectPending)
  }

  predicate ExitsNow(r: Runner, e: Event) {
    (CallsDisconnect(r, e) && Over(e.disconnect)) || NothingToDisconnect(r, e) || WaitEnds(r, e)
  }

  // ---- What else every run keeps ----

  predicate Kept(r: Runner) {
    && Inv(r)
    && (r.timers.reportRunning ==> r.timers.ready)
    && (r.phase == Powered || r.phase == Looping ==> r.power.powered == (r.flow.exits == 0) && r.power.ons == 1)
    && (r.flow.exits > 0 ==> !r.power.powered)
    && (r.flow.disconnectPending ==> r.power.powered || r.phase == Done)
    && (r.phase == Booted ==> !r.timers.reportRunning && !r.timers.disconnectArmed)
  }

  // ---- Every flag, after every event ----

  /** Where the request is. */
  predicate TokenTold(r: Runner, e: Event, n: Runner) {
    && (n.flow.posting <==> (e.Exchange? && !r.flow.requested) || (r.flow.posting && !e.Post?))
    && (n.flow.callbackQueued <==> e.Post? || (r.flow.callbackQueued && !e.Callback?))
    && (n.flow.neutralPending <==>
          || (e.Callback? && e.neutral == NeutralLater)
          || (r.flow.neutralPending && !(r.timers.ready && (e.CanSend? || e.Closed?))))
    && (n.flow.disconnectPending <==>
          || (CallsDisconnect(r, e) && !Over(e.disconnect))
          || (r.flow.disconnectPending && !WaitEnds(r, e)))
    && (n.flow.exits > 0 <==> r.flow.exits > 0 || ExitsNow(r, e))
  }

  predicate TimersTold(r: Runner, e: Event, n: Runner) {
    && n.timers.ready == r.timers.ready
    && (n.timers.reportRunning <==>
          || (e.Opened? && e.started && r.timers.ready)
          || (r.timers.reportRunning && !(e.Closed? && r.timers.ready) && !(e.Timeout? && r.flow.disconnectPending) &&
              !(CallsDisconnect(r, e) && Over(e.disconnect))))
    && (n.timers.disconnectArmed <==>
          || (CallsDisconnect(r, e) && e.disconnect.ok)
          || (r.timers.disconnectArmed && !e.Timeout? && !ExitsNow(r, e)))
  }

  predicate PowerTold(r: Runner, e: Event, n: Runner) {
    && (n.power.powered <==> (e.PowerOn? && e.ok) || (r.power.powered && !ExitsNow(r, e) && !e.Cleanup?))
    && n.power.ons == (if e.PowerOn? && e.ok then r.power.ons + 1 else r.power.ons)
    && (n.flow.requested <==> e.Exchange? || r.flow.requested)
    && n.phase == match e
                  case PowerOn(ok) => if ok then Powered else Leaving
                  case Install(ok) => if ok then Looping else Leaving
                  case LoopReturns => Leaving
                  case Cleanup => Done
                  case _ => r.phase
  }

  predicate Told(r: Runner, e: Event, n: Runner) {
    TokenTold(r, e, n) && TimersTold(r, e, n) && PowerTold(r, e, n)
  }

  lemma RequestTold(r: Runner, e: Event)
    requires Kept(r) && Enabled(r, e) && (e.Exchange? || e.Post?)
    ensures Told(r, e, Step(r, e))
  {
  }

  lemma OpenedTold(r: Runner, e: Event)
    requires Kept(r) && Enabled(r, e) && e.Opened?
    ensures Told(r, e, Step(r, e))
  {
  }

  lemma MainTold(r: Runner, e: Event)
    requires Kept(r) && Enabled(r, e) && (e.PowerOn? || e.Install? || e.LoopReturns? || e.Cleanup?)
    ensures Told(r, e, Step(r, e))
  {
    if r.phase == Booted {
      BootedIsQuiet(r);
    }
  }

  lemma BootedIsQuiet(r: Runner)
    requires Kept(r) && r.phase == Booted
    ensures r.flow == QUIET && r.power == Power(false, 0, 0)
  {
  }

  lemma CallbackTold(r: Runner, e: Event)
    requires Kept(r) && Enabled(r, e) && e.Callback?
    ensures Told(r, e, Step(r, e))
  {
  }

  lemma CanSendTold(r: Runner, e: Event)
    requires Kept(r) && Enabled(r, e) && e.CanSend?
    ensures Told(r, e, Step(r, e))
  {
    if r.timers.ready && r.flow.neutralPending {
      WaitedCanSend(r, e);
    }
  }

  lemma WaitedCanSend(r: Runner, e: Event)
    requires Kept(r) && Enabled(r, e) && e.CanSend? && r.timers.ready && r.flow.neutralPending
    ensures Told(r, e, Step(r, e))
  {
    OnlyNeutral(r);
  }

  lemma OnlyNeutral(r: Runner)
    requires Kept(r) && r.flow.neutralPending
    ensures r.flow == Flow(true, false, false, true, false, 0)
  {
  }

  lemma ClosedTold(r: Runner, e: Event)
    requires Kept(r) && Enabled(r, e) && e.Closed?
    ensures Told(r, e, Step(r, e))
  {
  }

  lemma TimeoutTold(r: Runner, e: Event)
    requires Kept(r) && Enabled(r, e) && e.Timeout?
    ensures Told(r, e, Step(r, e))
  {
  }

  lemma EventTold(r: Runner, e: Event)
    requires Kept(r) && Enabled(r, e)
    ensures Told(r, e, Step(r, e))
  {
    match e
    case Callback(_, _) => CallbackTold(r, e);
    case CanSend(_) => CanSendTold(r, e);
    case Closed(_) => ClosedTold(r, e);
    case Timeout(_) => TimeoutTold(r, e);
    case Exchange => RequestTold(r, e);
    case Post => RequestTold(r, e);
    case Opened(_) => OpenedTold(r, e);
    case _ => MainTold(r, e);
  }

  lemma KeptTold(r: Runner, e: Event, n: Runner)
    requires Kept(r) && Enabled(r, e) && Told(r, e, n) && Inv(n)
    ensures Kept(n)
  {
  }

  lemma KeptStep(r: Runner, e: Event)
    requires Kept(r) && Enabled(r, e)
    ensures Kept(Step(r, e))
  {
    InvStep(r, e);
    EventTold(r, e);
    KeptTold(r, e, Step(r, e));
  }

  lemma {:induction false} KeptRun(ready: bool, es: seq<Event>)
    requires Legal(ready, es)
    ensures Kept(Run(ready, es))
    decreases |es|
  {
    if es != [] {
      KeptRun(ready, es[..|es| - 1]);
      KeptStep(Run(ready, es[..|es| - 1]), es[|es| - 1]);
    }
  }

  /** In every run each event sets and clears exactly these flags: where the request is, the two
      timers, the power and the phase. */
  lemma EveryFlagIsTold(ready: bool, es: seq<Event>, e: Event)
    requires Legal(ready, es) && Enabled(Run(ready, es), e)
    ensures Told(Run(ready, es), e, Step(Run(ready, es), e))
  {
    KeptRun(ready, es);
    EventTold(Run(ready, es), e);
  }

  /** In every run, an event that calls the disconnect port ends in the exit, with the report timer
      stopped and the power off, exactly if the call failed or the connection was closed at once;
      otherwise the disconnect is pending with its timer armed, and the power is still on. */
  lemma DisconnectLeadsTo(ready: bool, es: seq<Event>, e: Event)
    requires Legal(ready, es) && Enabled(Run(ready, es), e) && CallsDisconnect(Run(ready, es), e)
    ensures var n := Step(Run(ready, es), e);
            && (n.flow.exits > 0 <==> !e.disconnect.ok || e.disconnect.closesAtOnce)
            && if n.flow.exits > 0 then !n.flow.disconnectPending && !n.timers.reportRunning && !n.power.powered
               else n.flow.disconnectPending && n.timers.disconnectArmed && n.timers.reportRunning && n.power.powered
  {
    EveryFlagIsTold(ready, es, e);
    KeptRun(ready, es);
    OneTokenAtATime(Run(ready, es), e);
  }

  lemma OneTokenAtATime(r: Runner, e: Event)
    requires Kept(r) && Enabled(r, e) && CallsDisconnect(r, e)
    ensures r.flow.exits == 0 && !r.flow.disconnectPending && r.power.powered
  {
  }

  // ---- What the events of a run say ----

  /** The runner, given which events have happened. */
  predicate Says(r: Runner, poweredOn: bool, powerFailed: bool, installFailed: bool, exchanged: bool, started: bool) {
    && (powerFailed || installFailed ==> r.phase == Leaving || r.phase == Done)
    && (powerFailed ==> !r.power.powered && r.power.ons == 0)
    && (r.flow.requested <==> exchanged)
    && (r.power.ons == 1 <==> poweredOn)
    && (r.phase == Booted <==> !started)
  }

  predicate EventsSay(es: seq<Event>, r: Runner) {
    Says(r, PowerOn(true) in es, PowerOn(false) in es, Install(false) in es, Exchange in es, es != [])
  }

  lemma SaysMore(
      r: Runner, e: Event, n: Runner, on: bool, failed: bool, uninstalled: bool, exchanged: bool, started: bool)
    requires Kept(r) && Enabled(r, e) && Told(r, e, n) && Says(r, on, failed, uninstalled, exchanged, started)
    ensures Says(n, on || e == PowerOn(true), failed || e == PowerOn(false), uninstalled || e == Install(false),
        exchanged || e == Exchange, true)
  {
  }

  lemma EventsSayMore(es: seq<Event>, e: Event, n: Runner)
    requires Says(n, PowerOn(true) in es || e == PowerOn(true), PowerOn(false) in es || e == PowerOn(false),
        Install(false) in es || e == Install(false), Exchange in es || e == Exchange, true)
    ensures EventsSay(es + [e], n)
  {
  }

  /** In every run: a failed power-on or installation keeps the loop from running, and after a failed
      power-on the power is never on; a request has been made exactly if there was an exchange; and the
      power was switched on exactly if a power-on succeeded. */
  lemma {:induction false} EventsTell(ready: bool, es: seq<Event>)
    requires Legal(ready, es)
    ensures EventsSay(es, Run(ready, es))
    decreases |es|
  {
    if es != [] {
      EventsTell(ready, es[..|es| - 1]);
      EventsTellNext(ready, es[..|es| - 1], es[|es| - 1]);
      assert es == es[..|es| - 1] + [es[|es| - 1]];
    }
  }

  lemma EventsTellNext(ready: bool, before: seq<Event>, e: Event)
    requires Legal(ready, before) && Enabled(Run(ready, before), e) && EventsSay(before, Run(ready, before))
    ensures EventsSay(before + [e], Step(Run(ready, before), e))
  {
    var r := Run(ready, before);
    KeptRun(ready, before);
    EventTold(r, e);
    SaysMore(r, e, Step(r, e), PowerOn(true) in before, PowerOn(false) in before, Install(false) in before,
        Exchange in before, before != []);
    EventsSayMore(before, e, Step(r, e));
  }
}
