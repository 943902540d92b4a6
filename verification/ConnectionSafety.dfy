/** The IPC runner and the report pump together: what the reports show once a connection is lost.
    The pump reads the state where its event stands in the run; operations of other threads that
    land between that read and the send are events behind it. */
module ConnectionSafety {
  import opened ControllerState
  import opened Options
  import DomainModel
  import Control
  import IpcSession
  import ReportPump
  import SafetyChain

  datatype Event = Ipc(e: IpcSession.Event) | Pump(p: ReportPump.Event)

  datatype System = System(ipc: IpcSession.Runner, pump: ReportPump.Pump)

  function Init(image: seq<U8>, cfg: ReportPump.Config): System {
    System(IpcSession.Init(image), ReportPump.Init(cfg))
  }

  /** A can-send event is given the state the domain holds. */
  function Fed(x: System, e: ReportPump.Event): ReportPump.Event {
    if e.EvCanSend? then e.(state := x.ipc.domain.state) else e
  }

  predicate Enabled(x: System, e: Event) {
    e.Ipc? ==> IpcSession.Enabled(x.ipc, e.e)
  }

  function Step(x: System, e: Event): System {
    match e
    case Ipc(ie) => x.(ipc := IpcSession.Step(x.ipc, ie))
    case Pump(pe) => x.(pump := ReportPump.Step(x.pump, Fed(x, pe)))
  }

  /** A run: the events, and the system before, between and after them. */
  predicate IsRun(image: seq<U8>, cfg: ReportPump.Config, es: seq<Event>, xs: seq<System>) {
    |xs| == |es| + 1 && xs[0] == Init(image, cfg) && forall i :: 0 <= i < |es| ==> Moves(xs, es, i)
  }

  predicate Moves(xs: seq<System>, es: seq<Event>, i: nat)
    requires i < |es| && |xs| == |es| + 1
  {
    Enabled(xs[i], es[i]) && xs[i + 1] == Step(xs[i], es[i])
  }

  // ---- Losing a connection and submitting again ----

  /** The client hung up, sent an over-long line or fell silent, or the runner was stopped. */
  predicate Loses(x: System, e: Event) {
    e.Ipc? && (IpcSession.Ends(x.ipc, e.e) || (e.e.Stop? && x.ipc.running))
  }

  /** What the client's command in this event comes down to, if the event serves one. */
  function ServedOp(r: IpcSession.Runner, e: IpcSession.Event): Option<DomainModel.Op> {
    var read := match e
      case Serve(_, read) => Some(read)
      case PollAt(_, Ready(_, read)) => Some(read)
      case _ => None;
    if !r.running || !r.hasConnection || read.None? || !read.value.Line? || read.value.command.None? then None
    else IpcSession.OpOf(r.connection.client, read.value.command.value)
  }

  /** The domain accepts a submission of an IPC client. */
  predicate AcceptsClient(x: System, e: Event) {
    e.Ipc? && ServedOp(x.ipc, e.e).Some? && Accepted(x.ipc.domain, ServedOp(x.ipc, e.e).value)
  }

  predicate Accepted(d: DomainModel.Domain, op: DomainModel.Op) {
    op.SetState? && DomainModel.Apply(d, op).1 == DomainModel.Plain(DomainModel.Ok)
  }

  /** A direct caller holds the lease, or the controller is neutral. */
  predicate Safe(d: DomainModel.Domain) {
    DomainModel.Owns(d.lease, Control.DIRECT) || d.state == NEUTRAL
  }

  lemma SafeApply(d: DomainModel.Domain, op: DomainModel.Op)
    requires Safe(d) && (Accepted(d, op) ==> op.client == Control.DIRECT)
    ensures Safe(DomainModel.Apply(d, op).0)
  {
  }

  lemma SafeServe(r: IpcSession.Runner, now: nat, polled: bool, read: IpcSession.Read)
    requires Safe(r.domain)
    requires var op := ServedOp(r, IpcSession.Serve(now, read)); op.Some? ==> !Accepted(r.domain, op.value)
    ensures Safe(IpcSession.ServeAt(r, now, polled, read).domain)
  {
    if r.running && r.hasConnection {
      var lost := DomainModel.Op.Revoke(DomainModel.Disconnect, r.connection.client);
      SafeApply(r.domain, lost);
      var op := ServedOp(r, IpcSession.Serve(now, read));
      if op.Some? {
        SafeApply(r.domain, op.value);
      }
    }
  }

  lemma SafePoll(r: IpcSession.Runner, now: nat, poll: IpcSession.Poll)
    requires Safe(r.domain)
    requires var op := ServedOp(r, IpcSession.PollAt(now, poll)); op.Some? ==> !Accepted(r.domain, op.value)
    ensures Safe(IpcSession.PollOnceAt(r, now, poll).domain)
  {
    SafeApply(r.domain, DomainModel.Op.Revoke(DomainModel.HeartbeatTimeout, r.connection.client));
    if poll.Ready? {
      SafeServe(r, now, true, poll.read);
    }
  }

  lemma SafeStep(r: IpcSession.Runner, e: IpcSession.Event)
    requires Safe(r.domain) && IpcSession.Enabled(r, e)
    requires ServedOp(r, e).Some? ==> !Accepted(r.domain, ServedOp(r, e).value)
    ensures Safe(IpcSession.Step(r, e).domain)
  {
    match e
    case Serve(now, read) => SafeServe(r.(clock := now), now, false, read);
    case PollAt(now, poll) => SafePoll(r.(clock := now), now, poll);
    case Stop =>
      SafeApply(r.domain, DomainModel.Op.Revoke(DomainModel.Disconnect, r.connection.client));
      SafeApply(r.domain, DomainModel.Op.Revoke(DomainModel.Shutdown, 0));
    case Direct(op) => SafeApply(r.domain, op);
    case _ =>
  }

  /** Losing a connection makes the domain safe. */
  lemma LossMakesSafe(r: IpcSession.Runner, e: IpcSession.Event)
    requires IpcSession.Inv(r) && IpcSession.Enabled(r, e)
    requires IpcSession.Ends(r, e) || (e.Stop? && r.running)
    ensures Safe(IpcSession.Step(r, e).domain)
  {
    if r.hasConnection {
      IpcSession.LoseVacates(r.domain, DomainModel.Disconnect, r.connection.client);
      IpcSession.LoseVacates(r.domain, DomainModel.HeartbeatTimeout, r.connection.client);
    }
  }

  // ---- Runs ----

  lemma {:induction false} InvRun(image: seq<U8>, cfg: ReportPump.Config, es: seq<Event>, xs: seq<System>, i: nat)
    requires IsRun(image, cfg, es, xs) && i < |xs|
    ensures IpcSession.Inv(xs[i].ipc)
    decreases i
  {
    if i > 0 {
      InvRun(image, cfg, es, xs, i - 1);
      assert Moves(xs, es, i - 1);
      if es[i - 1].Ipc? {
        IpcSession.InvStep(xs[i - 1].ipc, es[i - 1].e);
      }
    }
  }

  predicate NoneAccepted(xs: seq<System>, es: seq<Event>, j: nat, i: nat)
    requires j <= i <= |es| && |xs| == |es| + 1
  {
    forall k :: j <= k < i ==> !AcceptsClient(xs[k], es[k])
  }

  lemma {:induction false} SafeSince(
      image: seq<U8>, cfg: ReportPump.Config, es: seq<Event>, xs: seq<System>, j: nat, i: nat)
    requires IsRun(image, cfg, es, xs) && j < i <= |es| && Loses(xs[j], es[j]) && NoneAccepted(xs, es, j + 1, i)
    ensures Safe(xs[i].ipc.domain)
    decreases i
  {
    assert Moves(xs, es, i - 1);
    if i == j + 1 {
      InvRun(image, cfg, es, xs, j);
      LossMakesSafe(xs[j].ipc, es[j].e);
    } else {
      SafeSince(image, cfg, es, xs, j, i - 1);
      assert !AcceptsClient(xs[i - 1], es[i - 1]);
      if es[i - 1].Ipc? {
        SafeStep(xs[i - 1].ipc, es[i - 1].e);
      }
    }
  }

  /** In every run, every periodic report made after a connection was lost, by hang-up, over-long line,
      silence or stop, and before another client's submission is accepted, shows the neutral state,
      unless a direct caller holds the lease when its state is read. */
  lemma LostConnectionsGoNeutral(
      image: seq<U8>, cfg: ReportPump.Config, es: seq<Event>, xs: seq<System>, j: nat, i: nat)
    requires IsRun(image, cfg, es, xs) && j < i < |es| && Loses(xs[j], es[j]) && NoneAccepted(xs, es, j + 1, i)
    requires es[i].Pump? &&
        ReportPump.Decide(xs[i].pump, Fed(xs[i], es[i].p)) == ReportPump.Transmission(ReportPump.Periodic)
    requires !DomainModel.Owns(xs[i].ipc.domain.lease, Control.DIRECT)
    ensures var s := ReportPump.EventSend(xs[i].pump, Fed(xs[i], es[i].p));
            && xs[i + 1].pump.line.sends == xs[i].pump.line.sends + [s]
            && s.content == ReportPump.FullState(NEUTRAL, s.content.stamp)
  {
    SafeSince(image, cfg, es, xs, j, i);
    assert Moves(xs, es, i);
    SafetyChain.SendsAfter(xs[i].pump, Fed(xs[i], es[i].p));
  }
}
