/** What the commands of a client mean for the domain, and what the events of a run say about the
    runner: whether it runs, how many clients it has had, when the present one was last heard of. */
module IpcHistory {
  import opened ControllerState
  import opened Options
  import opened DomainModel
  import opened IpcSession
  import Control

  // ---- Commands ----

  /** A release is answered as released exactly if the client owns the lease and names itself; then the
      lease is free and the controller neutral. Any other release changes nothing and is refused. */
  lemma ReleaseMeans(d: Domain, client: U32, id: Option<U32>)
    ensures var n, response := Execute(d, client, ReleaseLease(id)), Respond(d, client, ReleaseLease(id));
            && (response == Released <==> id == Some(client) && d.lease.hasOwner && d.lease.owner == client)
            && if response == Released then n == d.(lease := Lease(false, 0, 0), state := NEUTRAL)
               else response == NotOwnerError && n == d
  {
  }

  /** An acquire is answered as acquired exactly if the client owns the lease afterwards, which is
      unless another client owned it before; state, sequence and everything else stay. */
  lemma AcquireMeans(d: Domain, client: U32)
    ensures var n, response := Execute(d, client, AcquireLease), Respond(d, client, AcquireLease);
            && (response == Acquired(client) <==> n.lease.hasOwner && n.lease.owner == client)
            && (response == Acquired(client) <==> !d.lease.hasOwner || d.lease.owner == client)
            && (response != Acquired(client) ==> response == OwnerBusyError && n == d)
            && n == d.(lease := Lease(n.lease.hasOwner, n.lease.owner, d.lease.lastSequence))
  {
  }

  /** A submission is in force afterwards exactly if the client names itself, owns the lease and is not
      behind its own last number; every other one changes nothing but the count of refusals. The
      answer tells of the first two only. */
  lemma SubmitMeans(d: Domain, client: U32, id: Option<U32>, state: State, sequence: U64)
    ensures var c := SubmitState(id, state, sequence);
            var n, response := Execute(d, client, c), Respond(d, client, c);
            var owner := id == Some(client) && d.lease.hasOwner && d.lease.owner == client;
            && response == (if owner then StateAccepted(sequence) else NotOwnerError)
            && n == if owner && d.lease.lastSequence <= sequence then
                 d.(state := state, lease := Lease(true, client, sequence),
                    metrics := d.metrics.(accepted := d.metrics.accepted + 1))
               else d.(metrics := d.metrics.(rejected := d.metrics.rejected + 1))
  {
  }

  /** Hello and status requests change nothing; the status is what the domain holds. */
  lemma AskingMeans(d: Domain, client: U32)
    ensures Execute(d, client, Hello) == d && Respond(d, client, Hello) == HelloOk(client)
    ensures Execute(d, client, GetStatus) == d
    ensures Respond(d, client, GetStatus) ==
            StatusIs(Status(d.lease, d.state, d.rumble, d.metrics, d.daemon, d.hardware))
  {
  }

  /** After a release that was answered as released, whoever asks first gets the lease, starts from the
      neutral state, and may submit under any number. */
  lemma ReleasedLeaseIsOpen(d: Domain, client: U32, id: Option<U32>, next: U32, state: State, sequence: U64)
    requires Respond(d, client, ReleaseLease(id)) == Released
    ensures var free := Execute(d, client, ReleaseLease(id));
            var taken := Execute(free, next, AcquireLease);
            && Respond(free, next, AcquireLease) == Acquired(next) && taken.state == NEUTRAL
            && Execute(taken, next, SubmitState(Some(next), state, sequence)).state == state
            && (next != client ==>
                  Respond(taken, client, SubmitState(Some(client), state, sequence)) == NotOwnerError)
  {
    ReleaseMeans(d, client, id);
    var free := Execute(d, client, ReleaseLease(id));
    AcquireMeans(free, next);
    SubmitMeans(Execute(free, next, AcquireLease), next, Some(next), state, sequence);
    SubmitMeans(Execute(free, next, AcquireLease), client, Some(client), state, sequence);
  }

  // ---- The runner, told from the events ----

  /** Whether the runner runs: the last start that could listen, or a stop since. */
  predicate Running(es: seq<Event>) {
    es != [] &&
    match es[|es| - 1]
    case Start(listens, _) => listens || Running(es[..|es| - 1])
    case Stop => false
    case _ => Running(es[..|es| - 1])
  }

  /** The heartbeat timeout given to the start that got the runner running. */
  function GivenTimeout(es: seq<Event>): nat {
    if es == [] then 0 else
    var before := es[..|es| - 1];
    match es[|es| - 1]
    case Start(listens, timeout) => if listens && !Running(before) then timeout else GivenTimeout(before)
    case _ => GivenTimeout(before)
  }

  /** The event accepts a client when there is none: at what time. */
  function AcceptTime(e: Event): Option<nat> {
    match e
    case Accept(passed, accepted) => if accepted then Some(passed) else None
    case PollAt(now, Ready(accepted, _)) => if accepted then Some(now) else None
    case _ => None
  }

  /** The event serves the connected client a line in a timed poll. */
  predicate Beats(e: Event) {
    e.PollAt? && e.poll.Ready? && e.poll.read.Line?
  }

  /** The event ends the connection there is, the last beat having been at `beat`. */
  predicate Hangs(es: seq<Event>, e: Event)
    decreases |es|, 1
  {
    match e
    case Serve(_, read) => read.Broken? || read.TooLong?
    case PollAt(now, Ready(_, read)) => read.Broken? || read.TooLong?
    case PollAt(now, Idle) => GivenTimeout(es) > 0 && LastHeard(es) + GivenTimeout(es) <= now
    case Stop => true
    case _ => false
  }

  /** How many clients there have been, and whether the last one is still connected. */
  function Clients(es: seq<Event>): (nat, bool)
    decreases |es|, 0
  {
    if es == [] then (0, false) else
    var before, e := es[..|es| - 1], es[|es| - 1];
    var (n, connected) := Clients(before);
    if connected then (n, !Hangs(before, e))
    else if Running(before) && AcceptTime(e).Some? then (n + 1, true)
    else (n, false)
  }

  /** When the present client was accepted or, later, last served a line by a timed poll. */
  function LastHeard(es: seq<Event>): nat
    decreases |es|, 0
  {
    if es == [] then 0 else
    var before, e := es[..|es| - 1], es[|es| - 1];
    if !Clients(before).1 then
      if Running(before) && AcceptTime(e).Some? then AcceptTime(e).value else LastHeard(before)
    else if Beats(e) then e.now
    else LastHeard(before)
  }

  /** The runner is as its events say. */
  predicate Told(es: seq<Event>, r: Runner) {
    && r.running == Running(es)
    && (r.running ==> r.timeout == GivenTimeout(es))
    && r.nextClient == Clients(es).0 + 1 && r.hasConnection == Clients(es).1
    && (r.hasConnection ==>
          && r.running && r.connection.client == Clients(es).0
          && r.connection.timeout == GivenTimeout(es) && r.connection.heartbeat == (GivenTimeout(es) > 0)
          && (r.connection.heartbeat ==> r.connection.heartbeatAt == LastHeard(es)))
  }

  lemma ToldStart(es: seq<Event>, r: Runner, e: Event)
    requires Told(es, r) && e.Start?
    ensures Told(es + [e], Step(r, e))
  {
    assert (es + [e])[..|es|] == es;
  }

  lemma ToldStop(es: seq<Event>, r: Runner, e: Event)
    requires Told(es, r) && e.Stop?
    ensures Told(es + [e], Step(r, e))
  {
    assert (es + [e])[..|es|] == es;
  }

  lemma ToldAccept(es: seq<Event>, r: Runner, e: Event)
    requires Told(es, r) && Enabled(r, e) && (e.Accept? || (e.PollAt? && !r.hasConnection))
    ensures Told(es + [e], Step(r, e))
  {
    assert (es + [e])[..|es|] == es;
  }

  lemma ToldServe(es: seq<Event>, r: Runner, e: Event)
    requires Told(es, r) && Enabled(r, e) && (e.Serve? || e.Direct? || (e.PollAt? && r.hasConnection))
    ensures Told(es + [e], Step(r, e))
  {
    assert (es + [e])[..|es|] == es;
  }

  lemma ToldStep(es: seq<Event>, r: Runner, e: Event)
    requires Told(es, r) && Enabled(r, e)
    ensures Told(es + [e], Step(r, e))
  {
    match e
    case Start(_, _) => ToldStart(es, r, e);
    case Stop => ToldStop(es, r, e);
    case Accept(_, _) => ToldAccept(es, r, e);
    case PollAt(_, _) => if r.hasConnection { ToldServe(es, r, e); } else { ToldAccept(es, r, e); }
    case _ => ToldServe(es, r, e);
  }

  /** In every run: the runner runs exactly from a start that could listen to the next stop; clients are
      numbered from 1 in the order they are accepted; and the connection lasts until its client
      hangs up, sends an over-long line or has been silent for the timeout that start was given. */
  lemma {:induction false} RunnerIsTold(image: seq<U8>, es: seq<Event>)
    requires Legal(image, es)
    ensures Told(es, Run(image, es))
    decreases |es|
  {
    if es != [] {
      RunnerIsTold(image, es[..|es| - 1]);
      ToldStep(es[..|es| - 1], Run(image, es[..|es| - 1]), es[|es| - 1]);
      assert es == es[..|es| - 1] + [es[|es| - 1]];
    }
  }

  // ---- The domain, told from the events ----

  /** What a command of this client does to the domain. */
  function CommandOps(client: U32, c: Command): seq<Op> {
    match c
    case AcquireLease => [Op.Acquire(client)]
    case ReleaseLease(id) => if id == Some(client) then [Op.Revoke(Release, client)] else []
    case SubmitState(id, state, sequence) =>
      if id == Some(client) then [Op.SetState(client, state, sequence)] else [RecordRejected]
    case _ => []
  }

  function ReadOps(client: U32, read: Read): seq<Op> {
    match read
    case Partial => []
    case Line(command) => if command.Some? then CommandOps(client, command.value) else []
    case _ => [Op.Revoke(Disconnect, client)]
  }

  /** The domain operations an event comes down to: the command of a served line, the revocation of a
      lost client, everything on a stop without a client, or a direct call. */
  function EventOps(es: seq<Event>, e: Event): seq<Op> {
    var (n, connected) := Clients(es);
    var client: U32 := n % 0x1_0000_0000;
    match e
    case Direct(op) => [op]
    case Serve(_, read) => if connected then ReadOps(client, read) else []
    case PollAt(_, Ready(_, read)) => if connected then ReadOps(client, read) else []
    case PollAt(_, Idle) => if connected && Hangs(es, e) then [Op.Revoke(HeartbeatTimeout, client)] else []
    case Stop =>
      if connected then [Op.Revoke(Disconnect, client)] else if Running(es) then [Op.Revoke(Shutdown, 0)] else []
    case _ => []
  }

  function OpsOf(es: seq<Event>): seq<Op> {
    if es == [] then [] else OpsOf(es[..|es| - 1]) + EventOps(es[..|es| - 1], es[|es| - 1])
  }

  /** At most one operation, applied. */
  function ApplyAll(d: Domain, ops: seq<Op>): Domain
    requires |ops| <= 1
  {
    if ops == [] then d else Apply(d, ops[0]).0
  }

  lemma CommandApplies(d: Domain, client: U32, c: Command)
    ensures Execute(d, client, c) == ApplyAll(d, CommandOps(client, c))
  {
  }

  lemma ReadApplies(r: Runner, now: nat, polled: bool, read: Read)
    requires r.running && r.hasConnection
    ensures ServeAt(r, now, polled, read).domain == ApplyAll(r.domain, ReadOps(r.connection.client, read))
  {
    if read.Line? && read.command.Some? {
      CommandApplies(r.domain, r.connection.client, read.command.value);
    }
  }

  lemma EventApplies(es: seq<Event>, r: Runner, e: Event)
    requires Told(es, r) && Inv(r) && Enabled(r, e)
    ensures Step(r, e).domain == ApplyAll(r.domain, EventOps(es, e))
  {
    if r.hasConnection {
      match e
      case Serve(now, read) => ReadApplies(r.(clock := now), now, false, read);
      case PollAt(now, Ready(_, read)) => ReadApplies(r.(clock := now), now, true, read);
      case _ =>
    }
  }

  lemma ReplayMore(d: Domain, ops: seq<Op>, more: seq<Op>)
    requires |more| <= 1
    ensures Replay(d, ops + more) == ApplyAll(Replay(d, ops), more)
  {
    if more == [] {
      assert ops + more == ops;
    } else {
      assert more == [more[0]];
      ReplaySnoc(d, ops, more[0], 0);
    }
  }

  /** In every run the domain is the replay of the operations its events come down to. So the controller
      shows the last accepted submission of the owner, or neutral, whatever the clients sent, were
      served or lost. */
  lemma {:induction false} DomainIsReplayed(image: seq<U8>, es: seq<Event>)
    requires Legal(image, es)
    ensures Run(image, es).domain == Replay(Fresh(image), OpsOf(es))
    ensures var last := LastAccepted(Fresh(image), OpsOf(es));
            Run(image, es).domain.state == if last.Some? then last.value.state else NEUTRAL
    decreases |es|
  {
    if es != [] {
      var before, e := es[..|es| - 1], es[|es| - 1];
      DomainIsReplayed(image, before);
      RunnerIsTold(image, before);
      InvRun(image, before);
      EventApplies(before, Run(image, before), e);
      ReplayMore(Fresh(image), OpsOf(before), EventOps(before, e));
    }
    StateIsFoldOfHistory(image, OpsOf(es));
  }
}
