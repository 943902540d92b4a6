/** The shutdown protocol and the report pump together: the neutral report the protocol asks for is
    sent, or left pending, by the pump, and the protocol's report-timer flag is the pump's. What has
    gone out when the disconnect is requested. */
module ShutdownPump {
  import opened ControllerState
  import opened Options
  import Shutdown
  import ReportPump
  import InputReport
  import PumpProperties
  import PumpTiming

  type Send = ReportPump.Send

  /** `sent` are the sender calls since the shutdown request; `reopened` says that a connection was
      opened since its callback ran. */
  datatype Daemon = Daemon(runner: Shutdown.Runner, pump: ReportPump.Pump, sent: seq<Send>, reopened: bool)

  datatype Event =
    | Protocol(e: Shutdown.Event)                 // requests and the main sequence
    | Callback(now: nat, ok: bool, d: Shutdown.Disconnect)
    | Opened(now: nat, cid: U16, started: bool)
    | CanSend(now: nat, ok: bool, state: State, d: Shutdown.Disconnect)
    | Closed(now: nat, d: Shutdown.Disconnect)
    | Timeout(now: nat, d: Shutdown.Disconnect)
    | TimerFires(now: nat)
    | Reply(now: nat, cid: U16, report: seq<U8>)

  function Init(ready: bool, cfg: ReportPump.Config): Daemon {
    Daemon(Shutdown.Init(ready), ReportPump.Init(cfg), [], false)
  }

  // ---- Steps ----

  /** What the pump is asked to do, if anything: a pump that is not ready or not running is not asked
      for a neutral report, and a session that is not ready ignores its events. */
  function PumpEvent(x: Daemon, e: Event): Option<ReportPump.Event> {
    var ready := x.runner.timers.ready;
    match e
    case Protocol(_) => None
    case Callback(now, ok, _) => if ready && x.pump.running then Some(ReportPump.EvNeutralNow(now, ok)) else None
    case Opened(now, cid, started) => if ready && started then Some(ReportPump.EvStart(now, cid)) else None
    case CanSend(now, ok, state, _) => if ready then Some(ReportPump.EvCanSend(now, ok, state)) else None
    case Closed(now, _) => if ready then Some(ReportPump.EvStop(now)) else None
    case Timeout(_, _) => None
    case TimerFires(now) => Some(ReportPump.EvTimer(now))
    case Reply(now, cid, report) => Some(ReportPump.EvEnqueue(now, cid, report))
  }

  /** How the callback's neutral report went. */
  function NeutralOf(x: Daemon, ok: bool): Shutdown.Neutral {
    if !x.runner.timers.ready || !x.pump.running then Shutdown.NeutralFailed
    else if ok then Shutdown.NeutralSent
    else Shutdown.NeutralLater
  }

  /** The protocol's own event, if it has one. */
  function RunnerEvent(x: Daemon, e: Event): Option<Shutdown.Event> {
    match e
    case Protocol(pe) => Some(pe)
    case Callback(_, ok, d) => Some(Shutdown.Callback(NeutralOf(x, ok), d))
    case Opened(_, _, started) => Some(Shutdown.Opened(started))
    case CanSend(_, _, _, d) => Some(Shutdown.CanSend(d))
    case Closed(_, d) => Some(Shutdown.Closed(d))
    case Timeout(_, d) => Some(Shutdown.Timeout(d))
    case _ => None
  }

  predicate IsProtocol(e: Shutdown.Event) {
    e.PowerOn? || e.Install? || e.Exchange? || e.Post? || e.LoopReturns? || e.Cleanup?
  }

  predicate Enabled(x: Daemon, e: Event) {
    && (e.Protocol? ==> IsProtocol(e.e))
    && (RunnerEvent(x, e).Some? ==> Shutdown.Enabled(x.runner, RunnerEvent(x, e).value))
  }

  function NewSends(x: Daemon, e: Event): seq<Send> {
    var pe := PumpEvent(x, e);
    if pe.Some? && ReportPump.Decide(x.pump, pe.value).Transmission? then [ReportPump.EventSend(x.pump, pe.value)]
        else []
  }

  function PumpStep(x: Daemon, e: Event): ReportPump.Pump {
    var pe := PumpEvent(x, e);
    if pe.Some? then ReportPump.Step(x.pump, pe.value) else x.pump
  }

  function RunnerStep(x: Daemon, e: Event): Shutdown.Runner {
    var re := RunnerEvent(x, e);
    if re.Some? then Shutdown.Step(x.runner, re.value) else x.runner
  }

  /** A first request. */
  predicate Requests(x: Daemon, e: Event) {
    e.Protocol? && e.e.Exchange? && !x.runner.flow.requested
  }

  /** The protocol stops the pump on its way out, if it is running then. */
  function Step(x: Daemon, e: Event): Daemon {
    var pump, runner := PumpStep(x, e), RunnerStep(x, e);
    Daemon(
      runner,
      if pump.running && !runner.timers.reportRunning then ReportPump.Step(pump, ReportPump.EvStop(pump.clock))
          else pump,
      if Requests(x, e) then [] else x.sent + NewSends(x, e),
      if e.Callback? then false else x.reopened || (e.Opened? && e.started))
  }

  /** A run: the events, and the daemon before, between and after them. */
  predicate IsRun(ready: bool, cfg: ReportPump.Config, es: seq<Event>, xs: seq<Daemon>) {
    |xs| == |es| + 1 && xs[0] == Init(ready, cfg) && forall i :: 0 <= i < |es| ==> Moves(xs, es, i)
  }

  predicate Moves(xs: seq<Daemon>, es: seq<Event>, i: nat)
    requires i < |es| && |xs| == |es| + 1
  {
    Enabled(xs[i], es[i]) && xs[i + 1] == Step(xs[i], es[i])
  }

  // ---- What the pump does at each event ----

  /** A neutral report the protocol asked for, sent at once or as a pending one. */
  predicate UrgentSent(s: Send) {
    ReportPump.NeutralKind(s.kind) && s.ok
  }

  /** A periodic report of the neutral state. */
  predicate PeriodicNeutral(s: Send) {
    s.kind == ReportPump.Periodic && s.ok && s.content == ReportPump.FullState(NEUTRAL, s.content.stamp)
  }

  /** Any message that went out and shows the neutral state. */
  predicate ShowsNeutral(s: Send) {
    s.ok && s.content == ReportPump.FullState(NEUTRAL, s.content.stamp)
  }

  /** One of the messages is such a one. */
  predicate Any(sent: seq<Send>, f: Send -> bool) {
    sent != [] && (f(sent[|sent| - 1]) || Any(sent[..|sent| - 1], f))
  }

  predicate UrgentOut(sent: seq<Send>) {
    Any(sent, UrgentSent)
  }

  lemma PumpFlags(x: Daemon, e: Event)
    ensures var p, q := x.pump, PumpStep(x, e);
            && (e.TimerFires? || e.Reply? || e.Timeout? || e.Protocol? ==>
                  q.running == p.running && q.neutralPending == p.neutralPending && NewSends(x, e) == [])
            && (e.Opened? || e.Closed? ==> NewSends(x, e) == [])
            && (e.Opened? || e.Closed? ==>
                  if PumpEvent(x, e).Some? then q.running == e.Opened? && !q.neutralPending else q == p)
  {
  }

  lemma CallbackFlags(x: Daemon, e: Event)
    requires e.Callback?
    ensures var p, q := x.pump, PumpStep(x, e);
            if x.runner.timers.ready && p.running then
              q.running && q.neutralPending == !e.ok &&
              |NewSends(x, e)| == 1 && UrgentSent(NewSends(x, e)[0]) == e.ok
            else q == p && NewSends(x, e) == []
  {
  }

  lemma PendingCanSend(p: ReportPump.Pump, e: ReportPump.Event)
    requires e.EvCanSend? && p.running && p.neutralPending
    ensures ReportPump.Decide(p, e) == ReportPump.Transmission(ReportPump.PendingNeutral)
    ensures var q := ReportPump.Step(p, e); q.running && q.neutralPending == !e.ok
  {
  }

  lemma OtherCanSend(p: ReportPump.Pump, e: ReportPump.Event)
    requires e.EvCanSend? && !(p.running && p.neutralPending)
    ensures var d := ReportPump.Decide(p, e); d.Transmission? ==> !ReportPump.NeutralKind(d.kind)
    ensures var q := ReportPump.Step(p, e); q.running == p.running && q.neutralPending == p.neutralPending
  {
  }

  lemma CanSendFlags(x: Daemon, e: Event)
    requires e.CanSend?
    ensures var p, q := x.pump, PumpStep(x, e);
            && q.running == p.running
            && if x.runner.timers.ready && p.running && p.neutralPending then
                 q.neutralPending == !e.ok && |NewSends(x, e)| == 1 && UrgentSent(NewSends(x, e)[0]) == e.ok
               else q.neutralPending == p.neutralPending && !UrgentOut(NewSends(x, e))
  {
    OutSnoc([], NewSends(x, e));
    var pe := ReportPump.EvCanSend(e.now, e.ok, e.state);
    if x.pump.running && x.pump.neutralPending {
      PendingCanSend(x.pump, pe);
    } else {
      OtherCanSend(x.pump, pe);
    }
  }

  /** What shows the neutral state is a report the protocol asked for, or a periodic one of that
      state; a reply never does. */
  predicate Classified(s: Send) {
    && (ReportPump.NeutralKind(s.kind) ==> s.content == ReportPump.FullState(NEUTRAL, s.content.stamp))
    && (s.kind == ReportPump.QueuedReply ==> s.content.Queued?)
  }

  lemma NewAreClassified(x: Daemon, e: Event, k: nat)
    requires k < |NewSends(x, e)|
    ensures Classified(NewSends(x, e)[k])
  {
  }

  // ---- What every run keeps ----

  predicate Early(f: Shutdown.Flow) {
    f.posting || f.callbackQueued
  }

  /** Before the callback nothing neutral is owed or sent; while the protocol waits for the neutral
      report, none has gone out, and the pump still owes it unless the connection was reopened. */
  predicate Inv(x: Daemon) {
    var f := x.runner.flow;
    && Shutdown.Inv(x.runner)
    && x.pump.running == x.runner.timers.reportRunning && (x.pump.running ==> x.runner.timers.ready)
    && (x.pump.neutralPending ==> f.requested && !Early(f))
    && (Early(f) || f.neutralPending ==> !UrgentOut(x.sent))
    && (f.neutralPending ==> x.pump.running && x.pump.neutralPending == !x.reopened)
  }

  lemma ProtocolRunner(r: Shutdown.Runner, e: Shutdown.Event)
    requires Shutdown.Inv(r) && Shutdown.Enabled(r, e) && IsProtocol(e)
    ensures var n := Shutdown.Step(r, e);
            && n.timers == r.timers && (r.flow.requested ==> n.flow.requested)
            && (n.flow.neutralPending ==> r.flow.neutralPending)
            && (Early(n.flow) ==> Early(r.flow) || (e.Exchange? && !r.flow.requested))
  {
  }

  lemma InvProtocol(x: Daemon, e: Event)
    requires Inv(x) && Enabled(x, e) && e.Protocol?
    ensures Inv(Step(x, e))
  {
    PumpFlags(x, e);
    Shutdown.InvStep(x.runner, e.e);
    ProtocolRunner(x.runner, e.e);
    assert PumpStep(x, e) == x.pump && x.sent + NewSends(x, e) == x.sent;
  }

  lemma InvQuiet(x: Daemon, e: Event)
    requires Inv(x) && Enabled(x, e) && (e.TimerFires? || e.Reply?)
    ensures Inv(Step(x, e))
  {
    PumpFlags(x, e);
    assert x.sent + NewSends(x, e) == x.sent;
  }

  lemma InvOpened(x: Daemon, e: Event)
    requires Inv(x) && Enabled(x, e) && e.Opened?
    ensures Inv(Step(x, e))
  {
    PumpFlags(x, e);
    Shutdown.InvStep(x.runner, Shutdown.Opened(e.started));
    assert x.sent + NewSends(x, e) == x.sent;
  }

  lemma ClosedRunner(r: Shutdown.Runner, d: Shutdown.Disconnect)
    requires Shutdown.Inv(r) && Shutdown.Enabled(r, Shutdown.Closed(d))
    ensures var n := Shutdown.Step(r, Shutdown.Closed(d));
            && Shutdown.Inv(n) && n.timers.ready == r.timers.ready && n.flow.requested == r.flow.requested
            && Early(n.flow) == Early(r.flow)
            && (if r.timers.ready then !n.timers.reportRunning && !n.flow.neutralPending else n == r)
  {
    Shutdown.InvStep(r, Shutdown.Closed(d));
  }

  lemma TimeoutRunner(r: Shutdown.Runner, d: Shutdown.Disconnect)
    requires Shutdown.Inv(r) && Shutdown.Enabled(r, Shutdown.Timeout(d))
    ensures var n := Shutdown.Step(r, Shutdown.Timeout(d));
            && Shutdown.Inv(n) && n.timers.ready == r.timers.ready && n.flow.requested == r.flow.requested
            && Early(n.flow) == Early(r.flow) && n.flow.neutralPending == r.flow.neutralPending
            && (n.timers.reportRunning ==> r.timers.reportRunning)
            && (n.flow.neutralPending ==> n.timers.reportRunning == r.timers.reportRunning)
  {
    Shutdown.InvStep(r, Shutdown.Timeout(d));
  }

  lemma InvClosed(x: Daemon, e: Event)
    requires Inv(x) && Enabled(x, e) && e.Closed?
    ensures Inv(Step(x, e))
  {
    PumpFlags(x, e);
    ClosedRunner(x.runner, e.d);
    StopFlags(PumpStep(x, e));
    assert x.sent + NewSends(x, e) == x.sent;
  }

  lemma InvTimeout(x: Daemon, e: Event)
    requires Inv(x) && Enabled(x, e) && e.Timeout?
    ensures Inv(Step(x, e))
  {
    PumpFlags(x, e);
    TimeoutRunner(x.runner, e.d);
    StopFlags(PumpStep(x, e));
    assert x.sent + NewSends(x, e) == x.sent;
  }

  lemma AnySnoc(sent: seq<Send>, more: seq<Send>, f: Send -> bool)
    requires |more| <= 1
    ensures Any(sent + more, f) <==> Any(sent, f) || Any(more, f)
    ensures |more| == 1 ==> Any(more, f) == f(more[0])
  {
    if more == [] {
      assert sent + more == sent;
    } else {
      assert (sent + more)[..|sent|] == sent && more[..0] == [];
    }
  }

  lemma OutSnoc(sent: seq<Send>, more: seq<Send>)
    requires |more| <= 1
    ensures UrgentOut(sent + more) <==> UrgentOut(sent) || UrgentOut(more)
    ensures |more| == 1 ==> UrgentOut(more) == UrgentSent(more[0])
  {
    AnySnoc(sent, more, UrgentSent);
  }

  lemma StopFlags(p: ReportPump.Pump)
    ensures var q := ReportPump.Step(p, ReportPump.EvStop(p.clock)); !q.running && !q.neutralPending
  {
  }

  lemma InvCallback(x: Daemon, e: Event)
    requires Inv(x) && Enabled(x, e) && e.Callback?
    ensures Inv(Step(x, e))
  {
    CallbackFlags(x, e);
    StopFlags(PumpStep(x, e));
    var re := Shutdown.Callback(NeutralOf(x, e.ok), e.d);
    Shutdown.InvStep(x.runner, re);
    OutSnoc(x.sent, NewSends(x, e));
    CallbackRunner(x.runner, NeutralOf(x, e.ok), e.d);
  }

  /** Where the callback leaves the token. */
  lemma CallbackRunner(r: Shutdown.Runner, neutral: Shutdown.Neutral, d: Shutdown.Disconnect)
    requires Shutdown.Inv(r) && Shutdown.Enabled(r, Shutdown.Callback(neutral, d))
    ensures var n := Shutdown.Step(r, Shutdown.Callback(neutral, d));
            && n.flow.requested && !Early(n.flow) && n.flow.neutralPending == neutral.NeutralLater?
            && n.timers.ready == r.timers.ready
            && (n.timers.reportRunning ==> r.timers.reportRunning)
            && (neutral.NeutralLater? ==> n.timers == r.timers)
  {
  }

  lemma CanSendRunner(r: Shutdown.Runner, d: Shutdown.Disconnect)
    requires Shutdown.Inv(r) && Shutdown.Enabled(r, Shutdown.CanSend(d))
    ensures var n := Shutdown.Step(r, Shutdown.CanSend(d));
            && n.timers.ready == r.timers.ready && (n.timers.reportRunning ==> r.timers.reportRunning)
            && if r.timers.ready && r.flow.neutralPending then n.flow.requested && !Early(n.flow) &&
                !n.flow.neutralPending
               else n == r
  {
  }

  lemma InvCanSend(x: Daemon, e: Event)
    requires Inv(x) && Enabled(x, e) && e.CanSend?
    ensures Inv(Step(x, e))
  {
    CanSendFlags(x, e);
    StopFlags(PumpStep(x, e));
    Shutdown.InvStep(x.runner, Shutdown.CanSend(e.d));
    OutSnoc(x.sent, NewSends(x, e));
    CanSendRunner(x.runner, e.d);
  }

  lemma InvStep(x: Daemon, e: Event)
    requires Inv(x) && Enabled(x, e)
    ensures Inv(Step(x, e))
  {
    match e
    case Protocol(_) => InvProtocol(x, e);
    case Callback(_, _, _) => InvCallback(x, e);
    case Opened(_, _, _) => InvOpened(x, e);
    case CanSend(_, _, _, _) => InvCanSend(x, e);
    case Closed(_, _) => InvClosed(x, e);
    case Timeout(_, _) => InvTimeout(x, e);
    case _ => InvQuiet(x, e);
  }

  lemma {:induction false} InvRun(ready: bool, cfg: ReportPump.Config, es: seq<Event>, xs: seq<Daemon>, i: nat)
    requires IsRun(ready, cfg, es, xs) && i < |xs|
    ensures Inv(xs[i])
    decreases i
  {
    if i == 0 {
      InvInit(ready, cfg);
    } else {
      InvRun(ready, cfg, es, xs, i - 1);
      InvMoves(xs, es, i - 1);
    }
  }

  lemma InvInit(ready: bool, cfg: ReportPump.Config)
    ensures Inv(Init(ready, cfg))
  {
  }

  lemma InvMoves(xs: seq<Daemon>, es: seq<Event>, i: nat)
    requires i < |es| && |xs| == |es| + 1 && Moves(xs, es, i) && Inv(xs[i])
    ensures Inv(xs[i + 1])
  {
    var x, e, y := xs[i], es[i], xs[i + 1];
    InvStep(x, e);
    assert y == Step(x, e);
  }

  // ---- The disconnect ----

  /** The event makes the protocol call the disconnect port. */
  predicate AsksDisconnect(x: Daemon, e: Event) {
    RunnerEvent(x, e).Some? && Shutdown.Handler(RunnerEvent(x, e).value) &&
    var h := Shutdown.Handle(x.runner, RunnerEvent(x, e).value);
    h.Finishes? && h.r.timers.reportRunning && !h.r.flow.disconnectPending
  }

  /** In every run, when the disconnect is requested the neutral report the protocol asked for has gone
      out, exactly unless it had been left pending and the can-send event that ends the wait fails,
      or comes after the connection was reopened. */
  lemma UrgentBeforeDisconnect(ready: bool, cfg: ReportPump.Config, es: seq<Event>, xs: seq<Daemon>, i: nat)
    requires IsRun(ready, cfg, es, xs) && i < |es| && AsksDisconnect(xs[i], es[i])
    ensures es[i].Callback? || es[i].CanSend?
    ensures UrgentOut(xs[i + 1].sent) <==> !(es[i].CanSend? && (!es[i].ok || xs[i].reopened))
  {
    InvRun(ready, cfg, es, xs, i);
    assert Moves(xs, es, i);
    NeutralAtDisconnect(xs[i], es[i]);
  }

  lemma {:induction false} SentAreClassified(
      ready: bool, cfg: ReportPump.Config, es: seq<Event>, xs: seq<Daemon>, i: nat, k: nat)
    requires IsRun(ready, cfg, es, xs) && i < |xs| && k < |xs[i].sent|
    ensures Classified(xs[i].sent[k])
    decreases i
  {
    if i > 0 {
      var x, e := xs[i - 1], es[i - 1];
      assert Moves(xs, es, i - 1);
      if k < |x.sent| {
        SentAreClassified(ready, cfg, es, xs, i - 1, k);
      } else {
        NewAreClassified(x, e, k - |x.sent|);
      }
    }
  }

  lemma {:induction false} NeutralIsUrgentOrPeriodic(sent: seq<Send>)
    requires forall k :: 0 <= k < |sent| ==> Classified(sent[k])
    ensures Any(sent, ShowsNeutral) <==> UrgentOut(sent) || Any(sent, PeriodicNeutral)
    decreases |sent|
  {
    if sent != [] {
      assert Classified(sent[|sent| - 1]);
      NeutralIsUrgentOrPeriodic(sent[..|sent| - 1]);
    }
  }

  /** In every run, when the disconnect is requested a message that shows the neutral state has gone
      out since the shutdown request, exactly unless the report the protocol asked for was left
      pending, the can-send event that ends the wait fails or comes after the connection was reopened,
      and no periodic report of the neutral state has gone out since the request either. */
  lemma NeutralBeforeDisconnect(ready: bool, cfg: ReportPump.Config, es: seq<Event>, xs: seq<Daemon>, i: nat)
    requires IsRun(ready, cfg, es, xs) && i < |es| && AsksDisconnect(xs[i], es[i])
    ensures !Any(xs[i + 1].sent, ShowsNeutral) <==>
              es[i].CanSend? && (!es[i].ok || xs[i].reopened) && !Any(xs[i + 1].sent, PeriodicNeutral)
  {
    UrgentBeforeDisconnect(ready, cfg, es, xs, i);
    var sent := xs[i + 1].sent;
    forall k | 0 <= k < |sent| ensures Classified(sent[k]) {
      SentAreClassified(ready, cfg, es, xs, i + 1, k);
    }
    NeutralIsUrgentOrPeriodic(sent);
  }

  lemma NeutralAtDisconnect(x: Daemon, e: Event)
    requires Inv(x) && Enabled(x, e) && AsksDisconnect(x, e)
    ensures e.Callback? || e.CanSend?
    ensures UrgentOut(Step(x, e).sent) <==> !(e.CanSend? && (!e.ok || x.reopened))
  {
    OutSnoc(x.sent, NewSends(x, e));
    if e.Callback? {
      CallbackFlags(x, e);
      assert e.ok;
      assert UrgentSent(NewSends(x, e)[0]);
    } else if e.CanSend? {
      CanSendFlags(x, e);
      if e.ok && !x.reopened {
        assert UrgentSent(NewSends(x, e)[0]);
      }
    }
  }

  /** Every message counted as neutral reads back as the neutral state. */
  lemma SentIsNeutral(ready: bool, cfg: ReportPump.Config, es: seq<Event>, xs: seq<Daemon>, i: nat, k: nat)
    requires IsRun(ready, cfg, es, xs) && i < |xs| && k < |xs[i].sent|
    requires UrgentSent(xs[i].sent[k]) || ShowsNeutral(xs[i].sent[k])
    ensures InputReport.ReadReport(ReportPump.Message(cfg.options, xs[i].sent[k].content)[1..], 0) == Some(NEUTRAL)
  {
    SentAreClassified(ready, cfg, es, xs, i, k);
    PumpProperties.NeutralOnWire(cfg.options, xs[i].sent[k].content.stamp);
  }

  lemma RunSnoc(ready: bool, cfg: ReportPump.Config, es: seq<Event>, xs: seq<Daemon>, e: Event)
    requires IsRun(ready, cfg, es, xs) && Enabled(xs[|es|], e)
    ensures IsRun(ready, cfg, es + [e], xs + [Step(xs[|es|], e)])
  {
    var fs, ys := es + [e], xs + [Step(xs[|es|], e)];
    forall i | 0 <= i < |fs| ensures Moves(ys, fs, i) {
      if i < |es| {
        assert Moves(xs, es, i);
      }
    }
  }

  /** A pump that was started and has nothing to send. */
  predicate Quiet(p: ReportPump.Pump) {
    p.running && !p.canSendPending && p.line.queue == []
  }

  lemma StartIsQuiet(p: ReportPump.Pump, now: nat, cid: U16)
    requires p.line.queue == []
    ensures Quiet(ReportPump.Step(p, ReportPump.EvStart(now, cid)))
  {
  }

  lemma FailedNeutral(p: ReportPump.Pump, now: nat)
    requires Quiet(p)
    ensures Quiet(ReportPump.Step(p, ReportPump.EvNeutralNow(now, false)))
  {
  }

  /** Up to the callback that leaves the neutral report pending. */
  lemma UpToPending(cfg: ReportPump.Config) returns (es: seq<Event>, xs: seq<Daemon>)
    ensures |es| == 6 && IsRun(true, cfg, es, xs)
    ensures var x := xs[6];
            && x.runner.phase == Shutdown.Looping && Quiet(x.pump) && x.pump.neutralPending && !x.reopened
            && x.runner.flow == Shutdown.QUIET.(requested := true, neutralPending := true)
            && x.runner.timers == Shutdown.Timers(true, true, false)
            && !Any(x.sent, ShowsNeutral)
  {
    es, xs := UpToCallback(cfg);
    var later := Callback(0, false, Shutdown.Disconnect(true, false));
    CallbackFlags(xs[5], later);
    FailedNeutral(xs[5].pump, 0);
    RunSnoc(true, cfg, es, xs, later);
    AnySnoc(xs[5].sent, NewSends(xs[5], later), ShowsNeutral);
    es, xs := es + [later], xs + [Step(xs[5], later)];
  }

  /** A run in which the pending neutral report fails, so that the disconnect is requested although
      nothing that shows the neutral state has gone out. */
  lemma FailingDropsTheNeutral(cfg: ReportPump.Config, s: State) returns (es: seq<Event>, xs: seq<Daemon>)
    ensures IsRun(true, cfg, es, xs) && es != []
    ensures var last := |es| - 1;
            && es[last].CanSend? && !es[last].ok && !xs[last].reopened
            && AsksDisconnect(xs[last], es[last]) && !Any(xs[last + 1].sent, ShowsNeutral)
  {
    es, xs := UpToPending(cfg);
    var can := CanSend(0, false, s, Shutdown.Disconnect(true, false));
    RunSnoc(true, cfg, es, xs, can);
    CanSendFlags(xs[6], can);
    AnySnoc(xs[6].sent, NewSends(xs[6], can), ShowsNeutral);
    es, xs := es + [can], xs + [Step(xs[6], can)];
  }

  /** A run in which the neutral report is left pending, another connection is opened, and the next
      can-send event ends the wait without any report, so that the disconnect is requested although
      nothing that shows the neutral state has gone out. */
  lemma ReopeningDropsTheNeutral(cfg: ReportPump.Config, s: State) returns (es: seq<Event>, xs: seq<Daemon>)
    ensures IsRun(true, cfg, es, xs) && es != []
    ensures var last := |es| - 1;
            && es[last].CanSend? && es[last].ok && xs[last].reopened
            && AsksDisconnect(xs[last], es[last]) && !Any(xs[last + 1].sent, ShowsNeutral)
  {
    es, xs := UpToReopened(cfg);
    var can := CanSend(0, true, s, Shutdown.Disconnect(true, false));
    RunSnoc(true, cfg, es, xs, can);
    assert NewSends(xs[7], can) == [];
    AnySnoc(xs[7].sent, [], ShowsNeutral);
    es, xs := es + [can], xs + [Step(xs[7], can)];
  }

  lemma UpToReopened(cfg: ReportPump.Config) returns (es: seq<Event>, xs: seq<Daemon>)
    ensures |es| == 7 && IsRun(true, cfg, es, xs)
    ensures var x := xs[7];
            && x.runner.phase == Shutdown.Looping && Quiet(x.pump) && !x.pump.neutralPending && x.reopened
            && x.runner.flow == Shutdown.QUIET.(requested := true, neutralPending := true)
            && x.runner.timers == Shutdown.Timers(true, true, false)
            && !Any(x.sent, ShowsNeutral)
  {
    es, xs := UpToPending(cfg);
    var again := Opened(0, 2, true);
    PumpFlags(xs[6], again);
    StartIsQuiet(xs[6].pump, 0, 2);
    RunSnoc(true, cfg, es, xs, again);
    AnySnoc(xs[6].sent, NewSends(xs[6], again), ShowsNeutral);
    es, xs := es + [again], xs + [Step(xs[6], again)];
  }

  lemma UpToCallback(cfg: ReportPump.Config) returns (es: seq<Event>, xs: seq<Daemon>)
    ensures |es| == 5 && IsRun(true, cfg, es, xs)
    ensures var x := xs[5];
            && x.runner.phase == Shutdown.Looping && Quiet(x.pump) && x.sent == []
            && x.runner.flow == Shutdown.QUIET.(requested := true, callbackQueued := true)
            && x.runner.timers == Shutdown.Timers(true, true, false)
  {
    es, xs := UpToOpened(cfg);
    var request := Protocol(Shutdown.Exchange);
    RunSnoc(true, cfg, es, xs, request);
    es, xs := es + [request], xs + [Step(xs[3], request)];
    var post := Protocol(Shutdown.Post);
    RunSnoc(true, cfg, es, xs, post);
    es, xs := es + [post], xs + [Step(xs[4], post)];
  }

  lemma UpToOpened(cfg: ReportPump.Config) returns (es: seq<Event>, xs: seq<Daemon>)
    ensures |es| == 3 && IsRun(true, cfg, es, xs)
    ensures var x := xs[3];
            && x.runner.phase == Shutdown.Looping && Quiet(x.pump) && x.runner.flow == Shutdown.QUIET
            && x.runner.timers == Shutdown.Timers(true, true, false)
  {
    var x0 := Init(true, cfg);
    es, xs := [], [x0];
    var on := Protocol(Shutdown.PowerOn(true));
    RunSnoc(true, cfg, es, xs, on);
    es, xs := es + [on], xs + [Step(x0, on)];
    var install := Protocol(Shutdown.Install(true));
    RunSnoc(true, cfg, es, xs, install);
    es, xs := es + [install], xs + [Step(xs[1], install)];
    var first := Opened(0, 1, true);
    PumpFlags(xs[2], first);
    StartIsQuiet(xs[2].pump, 0, 1);
    RunSnoc(true, cfg, es, xs, first);
    es, xs := es + [first], xs + [Step(xs[2], first)];
  }

  // ---- Whose reports they are ----

  /** The connection the pump was last started for. */
  function LastOpened(es: seq<Event>): U16 {
    if es == [] then 0 else
    var e := es[|es| - 1];
    if e.Opened? && e.started then e.cid else LastOpened(es[..|es| - 1])
  }

  lemma CidAfter(x: Daemon, e: Event)
    requires Inv(x) && Enabled(x, e)
    ensures var n := Step(x, e);
            n.pump.running ==> n.pump.cid == if e.Opened? && e.started then e.cid else x.pump.cid
    ensures Step(x, e).pump.running && !(e.Opened? && e.started) ==> x.pump.running
  {
    InvStep(x, e);
    PumpFlags(x, e);
    if PumpEvent(x, e).Some? {
      PumpTiming.StartKept(x.pump, PumpEvent(x, e).value);
      KeepsRunning(x.pump, PumpEvent(x, e).value);
    }
  }

  lemma KeepsRunning(p: ReportPump.Pump, e: ReportPump.Event)
    ensures ReportPump.Step(p, e).running <==> e.EvStart? || (p.running && !e.EvStop?)
  {
    if ReportPump.Decide(p, e).Transmission? {
      PumpTiming.ClockKept(ReportPump.Entered(p, e), ReportPump.EventSend(p, e), e.now);
    }
  }

  /** In every run the pump, while it runs, serves the connection last opened. */
  lemma {:induction false} PumpServesTheConnection(
      ready: bool, cfg: ReportPump.Config, es: seq<Event>, xs: seq<Daemon>, i: nat)
    requires IsRun(ready, cfg, es, xs) && i < |xs|
    ensures xs[i].pump.running ==> xs[i].pump.cid == LastOpened(es[..i])
    decreases i
  {
    if i > 0 {
      PumpServesTheConnection(ready, cfg, es, xs, i - 1);
      InvRun(ready, cfg, es, xs, i - 1);
      assert Moves(xs, es, i - 1);
      CidAfter(xs[i - 1], es[i - 1]);
      assert es[..i][..i - 1] == es[..i - 1];
    }
  }
}
