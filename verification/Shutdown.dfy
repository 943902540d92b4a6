/** The shutdown protocol: a request from any thread becomes one callback on the main thread,
    then a neutral report, a disconnect with a 250 ms timeout, power off and the end of the run
    loop. The steps as functions of the runner, and what every order of events keeps. */
module Shutdown {
  datatype Phase = Booted | Powered | Looping | Leaving | Done

  /** Where the request is: `posting` is one between its atomic exchange and the queueing of the
      callback; the other flags are the runner's own. */
  datatype Flow = Flow(
    requested: bool, posting: bool, callbackQueued: bool,
    neutralPending: bool, disconnectPending: bool, exits: nat)

  /** The power flag with the number of calls of the power port. */
  datatype Power = Power(powered: bool, ons: nat, offs: nat)

  /** The two timers. `ready` says that the report timer was initialised. */
  datatype Timers = Timers(ready: bool, reportRunning: bool, disconnectArmed: bool)

  datatype Runner = Runner(phase: Phase, flow: Flow, power: Power, timers: Timers)

  const QUIET := Flow(false, false, false, false, false, 0)

  function Init(ready: bool): Runner {
    Runner(Booted, QUIET, Power(false, 0, 0), Timers(ready, false, false))
  }

  /** What the disconnect port does: whether it succeeds, and whether it reports the connection
      closed before it returns. */
  datatype Disconnect = Disconnect(ok: bool, closesAtOnce: bool)

  datatype Neutral = NeutralSent | NeutralLater | NeutralFailed | NoHost

  datatype Event =
    | PowerOn(ok: bool)
    | Install(ok: bool)
    | Exchange                                        // a request, on any thread
    | Post                                            // that request queues the callback
    | Callback(neutral: Neutral, disconnect: Disconnect)
    | Opened(started: bool)
    | CanSend(disconnect: Disconnect)
    | Closed(disconnect: Disconnect)
    | Timeout(disconnect: Disconnect)
    | LoopReturns
    | Cleanup

  // ---- Steps ----

  function PowerOff(p: Power): Power {
    Power(false, p.ons, if p.powered then p.offs + 1 else p.offs)
  }

  /** Cancels the disconnect timer, switches off and ends the run loop. */
  function TriggerExit(r: Runner): Runner {
    Runner(r.phase, r.flow.(exits := r.flow.exits + 1), PowerOff(r.power), r.timers.(disconnectArmed := false))
  }

  function Stopped(t: Timers): Timers {
    t.(reportRunning := false)
  }

  /** A close reported from inside the disconnect call, with a disconnect pending. */
  function ClosedInside(r: Runner): Runner {
    if !r.timers.ready then r
    else if r.flow.neutralPending then
        TriggerExit(Runner(r.phase, r.flow.(neutralPending := false), r.power, Stopped(r.timers)))
    else TriggerExit(Runner(r.phase, r.flow.(disconnectPending := false), r.power, Stopped(r.timers)))
  }

  function Finish(r: Runner, d: Disconnect): Runner {
    if !r.timers.reportRunning then TriggerExit(r)
    else if r.flow.disconnectPending then r
    else
      var asked := r.(flow := r.flow.(disconnectPending := true));
      var after := if d.closesAtOnce then ClosedInside(asked) else asked;
      if d.ok then after.(timers := after.timers.(disconnectArmed := true))
      else TriggerExit(Runner(r.phase, after.flow.(disconnectPending := false), after.power, Stopped(after.timers)))
  }

  predicate Enabled(r: Runner, e: Event) {
    match e
    case PowerOn(_) => r.phase == Booted
    case Install(_) => r.phase == Powered
    case Exchange => r.phase == Powered || r.phase == Looping || r.phase == Leaving
    case Post => r.flow.posting
    case Callback(_, _) => r.phase == Looping && r.flow.callbackQueued
    case Timeout(_) => r.phase == Looping && r.timers.disconnectArmed
    case Cleanup => r.phase == Leaving
    case _ => r.phase == Looping
  }

  predicate Handler(e: Event) {
    e.Callback? || e.CanSend? || e.Closed? || e.Timeout?
  }

  /** The runner as a handler leaves it, and whether it then goes on to Finish. */
  datatype Handled = Finishes(r: Runner) | Stays(r: Runner)

  function Handle(r: Runner, e: Event): Handled
    requires Handler(e)
  {
    match e
    case Callback(neutral, _) =>
      var taken := r.flow.(callbackQueued := false);
      if neutral == NeutralLater then Stays(r.(flow := taken.(neutralPending := true))) else Finishes(r.(flow := taken))
    case CanSend(_) =>
      if r.timers.ready && r.flow.neutralPending then Finishes(r.(flow := r.flow.(neutralPending := false)))
          else Stays(r)
    case Closed(_) =>
      if !r.timers.ready then Stays(r)
      else if r.flow.neutralPending then
          Finishes(r.(timers := Stopped(r.timers), flow := r.flow.(neutralPending := false)))
      else if r.flow.disconnectPending then
          Finishes(r.(timers := Stopped(r.timers), flow := r.flow.(disconnectPending := false)))
      else Stays(r.(timers := Stopped(r.timers)))
    case Timeout(_) =>
      if r.flow.disconnectPending then
          Finishes(r.(timers := Timers(r.timers.ready, false, false), flow := r.flow.(disconnectPending := false)))
      else Stays(r.(timers := r.timers.(disconnectArmed := false)))
  }

  /** The main sequence, requests and opened connections. */
  function Outside(r: Runner, e: Event): Runner
    requires !Handler(e)
  {
    match e
    case PowerOn(ok) =>
      if ok then Runner(Powered, QUIET.(exits := r.flow.exits), r.power.(powered := true, ons := r.power.ons + 1),
          r.timers)
      else r.(phase := Leaving)
    case Install(ok) => r.(phase := if ok then Looping else Leaving)
    case Exchange => if r.flow.requested then r else r.(flow := r.flow.(requested := true, posting := true))
    case Post => r.(flow := r.flow.(posting := false, callbackQueued := true))
    case Opened(started) => if started && r.timers.ready then r.(timers := r.timers.(reportRunning := true)) else r
    case LoopReturns => r.(phase := Leaving)
    case Cleanup => r.(power := PowerOff(r.power), phase := Done)
  }

  function Step(r: Runner, e: Event): Runner {
    if !Handler(e) then Outside(r, e) else
    match Handle(r, e)
    case Stays(next) => next
    case Finishes(next) => Finish(next, e.disconnect)
  }

  predicate Legal(ready: bool, es: seq<Event>) {
    es == [] || (Legal(ready, es[..|es| - 1]) && Enabled(Run(ready, es[..|es| - 1]), es[|es| - 1]))
  }

  function Run(ready: bool, es: seq<Event>): Runner {
    if es == [] then Init(ready) else Step(Run(ready, es[..|es| - 1]), es[|es| - 1])
  }

  // ---- The token ----

  function Count(b: bool): nat {
    if b then 1 else 0
  }

  /** In how many places the request is: on its way to the main thread, queued there, waiting
      for the neutral report, waiting for the disconnect, or through. */
  function Tokens(f: Flow): nat {
    Count(f.posting) + Count(f.callbackQueued) + Count(f.neutralPending) + Count(f.disconnectPending) +
    Count(f.exits > 0)
  }

  predicate Booked(r: Runner) {
    && (r.phase == Booted ==> r.flow == QUIET && r.power == Power(false, 0, 0))
    && r.power.ons == r.power.offs + Count(r.power.powered) && r.power.ons <= 1
    && (r.phase == Done ==> !r.power.powered)
  }

  predicate Inv(r: Runner) {
    && Tokens(r.flow) == Count(r.flow.requested)
    && (r.flow.disconnectPending ==> r.timers.disconnectArmed)
    && Booked(r)
  }

  /** Finish is entered with the token in hand, and puts it down in one place. */
  predicate InHand(r: Runner) {
    r.flow.requested && Tokens(r.flow) == 0 && r.phase == Looping && Booked(r)
  }

  lemma InvHandle(r: Runner, e: Event)
    requires Inv(r) && Enabled(r, e) && Handler(e)
    ensures Handle(r, e).Finishes? ==> InHand(Handle(r, e).r)
    ensures Handle(r, e).Stays? ==> Inv(Handle(r, e).r)
  {
  }

  lemma InvFinish(r: Runner, d: Disconnect)
    requires InHand(r)
    ensures Inv(Finish(r, d))
  {
  }

  lemma InvRequest(r: Runner, e: Event)
    requires Inv(r) && Enabled(r, e) && (e.Exchange? || e.Post? || e.Opened?)
    ensures Inv(Outside(r, e))
  {
  }

  lemma InvMain(r: Runner, e: Event)
    requires Inv(r) && Enabled(r, e) && (e.PowerOn? || e.Install? || e.LoopReturns? || e.Cleanup?)
    ensures Inv(Outside(r, e))
  {
  }

  lemma InvStep(r: Runner, e: Event)
    requires Inv(r) && Enabled(r, e)
    ensures Inv(Step(r, e))
  {
    if Handler(e) {
      InvHandle(r, e);
      if Handle(r, e).Finishes? {
        InvFinish(Handle(r, e).r, e.disconnect);
      }
    } else {
      if e.Exchange? || e.Post? || e.Opened? {
        InvRequest(r, e);
      } else {
        InvMain(r, e);
      }
    }
  }

  lemma {:induction false} InvRun(ready: bool, es: seq<Event>)
    requires Legal(ready, es)
    ensures Inv(Run(ready, es))
    decreases |es|
  {
    if es != [] {
      InvRun(ready, es[..|es| - 1]);
      InvStep(Run(ready, es[..|es| - 1]), es[|es| - 1]);
    }
  }

  /** In every order of events: after a request exactly one of the five places holds it, before
      it none does, so no exit comes without a request; a pending disconnect has its timer
      armed; the power port is switched off once for each time it was switched on. */
  lemma OneToken(ready: bool, es: seq<Event>)
    requires Legal(ready, es)
    ensures var r := Run(ready, es);
            && Tokens(r.flow) == (if r.flow.requested then 1 else 0)
            && (r.flow.exits > 0 ==> r.flow.requested)
            && (r.flow.disconnectPending ==> r.timers.disconnectArmed)
            && r.power.offs <= r.power.ons <= 1
            && (r.phase == Done ==> r.power.offs == r.power.ons)
  {
    InvRun(ready, es);
  }

  // ---- The exit ----

  /** The disconnect call reports the close and then fails. */
  predicate ClosesThenFails(r: Runner, e: Event) {
    Handler(e) &&
    var h := Handle(r, e);
    h.Finishes? && h.r.timers.reportRunning && h.r.timers.ready && !e.disconnect.ok && e.disconnect.closesAtOnce
  }

  /** Finish from a clean start: what it adds to the exits. */
  lemma FinishExits(r: Runner, d: Disconnect)
    requires InHand(r)
    ensures var next := Finish(r, d);
            && (next.flow.exits > 0 ==> !next.timers.reportRunning && !next.power.powered)
            && (r.timers.reportRunning && r.timers.ready && !d.ok && d.closesAtOnce <==> next.flow.exits == 2)
            && next.flow.exits <= 2
  {
  }

  predicate ExitsRight(r: Runner, next: Runner, double: bool) {
    if r.flow.exits == next.flow.exits then !double
    else
      && r.flow.exits == 0 && !next.timers.reportRunning && !next.power.powered
      && next.flow.exits == if double then 2 else 1
  }

  lemma ExitAt(r: Runner, e: Event)
    requires Inv(r) && Enabled(r, e)
    ensures ExitsRight(r, Step(r, e), ClosesThenFails(r, e))
  {
    if Handler(e) {
      InvHandle(r, e);
      if Handle(r, e).Finishes? {
        FinishExits(Handle(r, e).r, e.disconnect);
      }
    }
  }

  /** Every exit happens with the report timer stopped and the power off, and one event
      triggers one exit unless its disconnect call closes and then fails, which makes two. */
  lemma ExitStep(ready: bool, es: seq<Event>, e: Event)
    requires Legal(ready, es) && Enabled(Run(ready, es), e)
    ensures ExitsRight(Run(ready, es), Step(Run(ready, es), e), ClosesThenFails(Run(ready, es), e))
  {
    InvRun(ready, es);
    ExitAt(Run(ready, es), e);
  }

  /** The run contains a disconnect call that closes and then fails. */
  predicate SomeClosesThenFails(ready: bool, es: seq<Event>) {
    es != [] && (SomeClosesThenFails(ready, es[..|es| - 1]) ||
        ClosesThenFails(Run(ready, es[..|es| - 1]), es[|es| - 1]))
  }

  /** The exit is triggered at most once, exactly unless a disconnect call closes and then
      fails; a call that closes and succeeds does no harm. */
  lemma {:induction false} ExitsOnceIff(ready: bool, es: seq<Event>)
    requires Legal(ready, es)
    ensures Run(ready, es).flow.exits <= 1 <==> !SomeClosesThenFails(ready, es)
    decreases |es|
  {
    if es != [] {
      var before := es[..|es| - 1];
      ExitsOnceIff(ready, before);
      ExitStep(ready, before, es[|es| - 1]);
    }
  }

  /** A run in which the exit is triggered twice. */
  lemma ExitsTwice()
    ensures var es := [PowerOn(true), Install(true), Opened(true), Exchange, Post,
        Callback(NeutralSent, Disconnect(false, true))];
            Legal(true, es) && Run(true, es).flow.exits == 2
  {
    var es := [PowerOn(true), Install(true), Opened(true), Exchange, Post,
        Callback(NeutralSent, Disconnect(false, true))];
    assert es[..5][..4] == es[..4] && es[..4][..3] == es[..3] && es[..3][..2] == es[..2] && es[..2][..1] == es[..1];
    assert es[..1][..0] == [];
    assert Run(true, es[..1]) == Step(Init(true), PowerOn(true)) && Legal(true, es[..1]);
    assert Legal(true, es[..2]) && Legal(true, es[..3]);
    assert Legal(true, es[..4]) && Legal(true, es[..5]);
  }

  /** Finish is never entered while a disconnect is already pending. */
  lemma FinishStartsClean(ready: bool, es: seq<Event>, e: Event)
    requires Legal(ready, es) && Enabled(Run(ready, es), e)
    requires Handler(e) && Handle(Run(ready, es), e).Finishes?
    ensures var r := Handle(Run(ready, es), e).r;
            r.flow.requested && !r.flow.disconnectPending && !r.flow.neutralPending && r.flow.exits == 0
  {
    InvRun(ready, es);
    InvHandle(Run(ready, es), e);
  }

  // ---- The token moves one way ----

  /** How far the request still has to go. */
  function Distance(f: Flow): nat {
    if f.posting then 4 else if f.callbackQueued then 3 else if f.neutralPending then 2
        else if f.disconnectPending then 1 else 0
  }

  lemma MovesOn(r: Runner, e: Event)
    requires Inv(r) && Enabled(r, e) && r.flow.requested
    ensures var next := Step(r, e);
            && next.flow.requested
            && Distance(next.flow) <= Distance(r.flow)
            && (e.Post? || e.Callback? ==> Distance(next.flow) < Distance(r.flow))
            && (r.timers.ready && r.flow.neutralPending && (e.CanSend? || e.Closed?) ==>
                  Distance(next.flow) < Distance(r.flow))
            && (r.flow.disconnectPending && (e.Timeout? || (e.Closed? && r.timers.ready)) ==> next.flow.exits > 0)
  {
  }

  /** After a request no event takes the token back; and whoever waits for it moves it: the
      callback, the next can-send or close event, and at the latest the disconnect timeout,
      which is always armed and always ends in the exit. */
  lemma TokenMovesOn(ready: bool, es: seq<Event>, e: Event)
    requires Legal(ready, es) && Run(ready, es).flow.requested && Enabled(Run(ready, es), e)
    ensures var r := Run(ready, es);
            var next := Step(r, e);
            && next.flow.requested
            && Distance(next.flow) <= Distance(r.flow)
            && (Distance(next.flow) == 0 <==> next.flow.exits > 0)
            && (e.Post? || e.Callback? ==> Distance(next.flow) < Distance(r.flow))
            && (r.timers.ready && r.flow.neutralPending && (e.CanSend? || e.Closed?) ==>
                  Distance(next.flow) < Distance(r.flow))
            && (r.flow.disconnectPending && (e.Timeout? || (e.Closed? && r.timers.ready)) ==> next.flow.exits > 0)
    ensures var r := Run(ready, es);
            r.flow.disconnectPending && r.phase == Looping ==> Enabled(r, Timeout(Disconnect(true, true)))
  {
    InvRun(ready, es);
    MovesOn(Run(ready, es), e);
    InvStep(Run(ready, es), e);
  }
}
