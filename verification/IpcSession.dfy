/** The IPC runner over any socket behaviour: start, accept, poll and stop, with the commands
    of the connected client applied to the domain, and direct control calls in between. */
module IpcSession {
  import opened ControllerState
  import opened Options
  import opened DomainModel
  import Control

  // ---- Commands ----

  /** A decoded command; `None` in place of one stands for a line the decoder answered itself. */
  datatype Command =
    | Hello
    | AcquireLease
    | ReleaseLease(ownerId: Option<U32>)
    | SubmitState(ownerId: Option<U32>, state: State, sequence: U64)
    | GetStatus

  datatype Response =
    | HelloOk(client: U32)
    | Acquired(owner: U32)
    | Released
    | StateAccepted(sequence: U64)
    | StatusIs(status: Status)
    | OwnerBusyError
    | NotOwnerError

  /** The domain operation a command of this client comes down to. */
  function OpOf(client: U32, c: Command): Option<Op> {
    match c
    case Hello => None
    case AcquireLease => Some(Op.Acquire(client))
    case ReleaseLease(id) => if id == Some(client) then Some(Op.Revoke(Release, client)) else None
    case SubmitState(id, state, sequence) =>
      if id == Some(client) then Some(Op.SetState(client, state, sequence)) else Some(RecordRejected)
    case GetStatus => Some(ReadStatus)
  }

  function Execute(d: Domain, client: U32, c: Command): Domain {
    match OpOf(client, c)
    case None => d
    case Some(op) => Apply(d, op).0
  }

  function Respond(d: Domain, client: U32, c: Command): Response {
    match c
    case Hello => HelloOk(client)
    case AcquireLease => if Apply(d, Op.Acquire(client)).1 == Plain(Ok) then Acquired(client) else OwnerBusyError
    case ReleaseLease(id) => if id == Some(client) && Owns(d.lease, client) then Released else NotOwnerError
    case SubmitState(id, _, sequence) => if id == Some(client) && Owns(d.lease, client) then StateAccepted(sequence)
        else NotOwnerError
    case GetStatus => StatusIs(Apply(d, ReadStatus).1.status)
  }

  // ---- The runner ----

  datatype Connection = Connection(open: bool, client: U32, heartbeatAt: nat, timeout: nat, heartbeat: bool)

  const CLOSED := Connection(false, 0, 0, 0, false)

  /** A complete line served to the connected client: when, and whether a timed poll did it. */
  datatype Served = Served(at: nat, polled: bool)

  datatype Runner = Runner(
    running: bool, bound: bool, hasConnection: bool, connection: Connection, nextClient: nat, timeout: nat,
    domain: Domain, clock: nat, served: seq<Served>, acceptedAt: nat)

  function Init(image: seq<U8>): Runner {
    Runner(false, true, false, CLOSED, 1, 0, Fresh(image), 0, [], 0)
  }

  /** What reading from the client's socket yields in one serve call. */
  datatype Read = Broken | TooLong | Partial | Line(command: Option<Command>)

  datatype Poll = CheckFailed | Idle | Ready(accepted: bool, read: Read)

  datatype Event =
    | Start(listens: bool, timeout: nat)
    | Accept(passed: nat, accepted: bool)
    | Serve(now: nat, read: Read)
    | PollAt(now: nat, poll: Poll)
    | Stop
    | Direct(op: Op)

  function Drop(r: Runner): Runner {
    r.(hasConnection := false, connection := CLOSED)
  }

  function Lose(r: Runner, reason: Reason): Runner {
    Drop(r.(domain := Apply(r.domain, Op.Revoke(reason, r.connection.client)).0))
  }

  function AcceptAt(r: Runner, passed: nat, accepted: bool): Runner {
    if !r.running || r.hasConnection then r
    else if !accepted then r.(connection := CLOSED)
    else r.(hasConnection := true, nextClient := r.nextClient + 1, served := [], acceptedAt := passed,
            connection := Connection(true, r.nextClient % 0x1_0000_0000, passed, r.timeout, r.timeout > 0))
  }

  function ServeAt(r: Runner, now: nat, polled: bool, read: Read): Runner {
    if !r.running || !r.hasConnection then r else
    match read
    case Broken => Lose(r, Disconnect)
    case TooLong => Lose(r, Disconnect)
    case Partial => r
    case Line(command) =>
      var beat := if polled && r.connection.heartbeat then r.connection.(heartbeatAt := now) else r.connection;
      r.(connection := beat, served := r.served + [Served(now, polled)],
         domain := if command.Some? then Execute(r.domain, r.connection.client, command.value) else r.domain)
  }

  predicate TimedOut(c: Connection, now: nat) {
    c.heartbeat && c.heartbeatAt <= now && c.timeout <= now - c.heartbeatAt
  }

  function PollOnceAt(r: Runner, now: nat, poll: Poll): Runner {
    if !r.running || poll.CheckFailed? then r
    else if !r.hasConnection then
      if poll.Idle? then r else AcceptAt(r, now, poll.accepted)
    else if poll.Idle? then
      if TimedOut(r.connection, now) then Lose(r, HeartbeatTimeout) else r
    else ServeAt(r, now, true, poll.read)
  }

  function StopRunner(r: Runner): Runner {
    if !r.running && !r.hasConnection then r
    else
      var ended := if r.hasConnection then Lose(r, Disconnect)
                   else if r.bound then r.(domain := Apply(r.domain, Op.Revoke(Shutdown, 0)).0)
                   else r;
      ended.(running := false, bound := false)
  }

  function Step(r: Runner, e: Event): Runner {
    match e
    case Start(listens, timeout) =>
      if r.running then r
      else if listens then r.(running := true, bound := true, hasConnection := false, timeout := timeout)
      else r.(bound := false)
    case Accept(passed, accepted) => AcceptAt(r, passed, accepted)
    case Serve(now, read) => ServeAt(r.(clock := now), now, false, read)
    case PollAt(now, poll) => PollOnceAt(r.(clock := now), now, poll)
    case Stop => StopRunner(r)
    case Direct(op) => r.(domain := Apply(r.domain, op).0)
  }

  /** A monotone clock, client ids that do not reach the direct one, and direct operations that
      take the lease only under the direct id. */
  predicate Enabled(r: Runner, e: Event) {
    && r.nextClient < Control.DIRECT
    && match e
       case Serve(now, _) => r.clock <= now
       case PollAt(now, _) => r.clock <= now
       case Direct(op) => op.Acquire? || op.SetState? ==> op.client == Control.DIRECT
       case _ => true
  }

  predicate Legal(image: seq<U8>, es: seq<Event>) {
    es == [] || (Legal(image, es[..|es| - 1]) && Enabled(Run(image, es[..|es| - 1]), es[|es| - 1]))
  }

  function Run(image: seq<U8>, es: seq<Event>): Runner {
    if es == [] then Init(image) else Step(Run(image, es[..|es| - 1]), es[|es| - 1])
  }

  // ---- Who may hold the lease ----

  /** The lease is free and the controller neutral, or the direct caller holds it, or the
      connected client does. */
  predicate Held(r: Runner) {
    || Vacant(r.domain)
    || Owns(r.domain.lease, Control.DIRECT)
    || (r.hasConnection && Owns(r.domain.lease, r.connection.client))
  }

  predicate Wired(r: Runner) {
    && (r.hasConnection ==> r.running && r.connection.open && 0 < r.connection.client < r.nextClient)
    && (r.running ==> r.bound)
    && 0 < r.nextClient <= Control.DIRECT
  }

  /** When a timed poll last served a line, or the connection was accepted. */
  function LastBeat(served: seq<Served>, acceptedAt: nat): nat {
    if served == [] then acceptedAt
    else if served[|served| - 1].polled then served[|served| - 1].at
    else LastBeat(served[..|served| - 1], acceptedAt)
  }

  predicate Beats(r: Runner) {
    && (r.connection.heartbeat ==> r.connection.heartbeatAt == LastBeat(r.served, r.acceptedAt))
    && (forall k :: 0 <= k < |r.served| ==> r.served[k].at <= r.clock)
    && (r.connection.heartbeat ==>
          forall k :: 0 <= k < |r.served| && r.served[k].polled ==> r.served[k].at <= r.connection.heartbeatAt)
  }

  predicate Inv(r: Runner) {
    Wired(r) && Held(r) && Beats(r)
  }

  lemma ApplyHeld(d: Domain, op: Op, client: U32)
    requires Vacant(d) || Owns(d.lease, Control.DIRECT) || Owns(d.lease, client)
    requires op.Acquire? || op.SetState? ==> op.client == client || op.client == Control.DIRECT
    ensures var n := Apply(d, op).0; Vacant(n) || Owns(n.lease, Control.DIRECT) || Owns(n.lease, client)
  {
  }

  /** Whoever is not the client keeps the lease, and nobody else gets it. */
  lemma LoseVacates(d: Domain, reason: Reason, client: U32)
    requires reason.Disconnect? || reason.HeartbeatTimeout?
    requires Vacant(d) || Owns(d.lease, Control.DIRECT) || Owns(d.lease, client)
    requires client != Control.DIRECT
    ensures var n := Apply(d, Op.Revoke(reason, client)).0;
            if Owns(d.lease, Control.DIRECT) then n == d else Vacant(n)
  {
  }

  lemma InvServe(r: Runner, now: nat, polled: bool, read: Read)
    requires Inv(r) && r.clock == now && r.nextClient < Control.DIRECT
    ensures Inv(ServeAt(r, now, polled, read))
  {
    if r.running && r.hasConnection {
      match read
      case Line(command) =>
        if command.Some? && OpOf(r.connection.client, command.value).Some? {
          ApplyHeld(r.domain, OpOf(r.connection.client, command.value).value, r.connection.client);
        }
      case _ => LoseVacates(r.domain, Disconnect, r.connection.client);
    }
  }

  lemma InvPoll(r: Runner, now: nat, poll: Poll)
    requires Inv(r) && r.clock == now && r.nextClient < Control.DIRECT
    ensures Inv(PollOnceAt(r, now, poll))
  {
    if r.running && r.hasConnection && poll.Ready? {
      InvServe(r, now, true, poll.read);
    } else if r.running && r.hasConnection {
      LoseVacates(r.domain, HeartbeatTimeout, r.connection.client);
    }
  }

  lemma InvStep(r: Runner, e: Event)
    requires Inv(r) && Enabled(r, e)
    ensures Inv(Step(r, e))
  {
    match e
    case Serve(now, read) => InvServe(r.(clock := now), now, false, read);
    case PollAt(now, poll) => InvPoll(r.(clock := now), now, poll);
    case Direct(op) => ApplyHeld(r.domain, op, if r.hasConnection then r.connection.client else Control.DIRECT);
    case Stop => if r.hasConnection { LoseVacates(r.domain, Disconnect, r.connection.client); }
    case _ =>
  }

  lemma {:induction false} InvRun(image: seq<U8>, es: seq<Event>)
    requires Legal(image, es)
    ensures Inv(Run(image, es))
    decreases |es|
  {
    if es != [] {
      InvRun(image, es[..|es| - 1]);
      InvStep(Run(image, es[..|es| - 1]), es[|es| - 1]);
    }
  }

  /** In every run, a lease held under an IPC client's id means a live connection with that id;
      a lease nobody holds means a neutral controller. */
  lemma OwnersAreConnected(image: seq<U8>, es: seq<Event>)
    requires Legal(image, es)
    ensures var r := Run(image, es);
            && (r.domain.lease.hasOwner && r.domain.lease.owner != Control.DIRECT ==>
                  r.running && r.hasConnection && r.connection.open && r.connection.client == r.domain.lease.owner)
            && (!r.domain.lease.hasOwner ==> r.domain.lease == FREE && r.domain.state == NEUTRAL)
  {
    InvRun(image, es);
  }

  // ---- Losing the connection ----

  /** The client hung up, sent an over-long line, fell silent, or the runner was stopped. */
  predicate Ends(r: Runner, e: Event) {
    r.hasConnection && !Step(r, e).hasConnection
  }

  /** Exactly these events end a connection, and then the IPC owner is gone: the controller is
      neutral unless a direct caller holds the lease, whose state is left alone. */
  lemma LossIsSafe(image: seq<U8>, es: seq<Event>, e: Event)
    requires Legal(image, es) && Enabled(Run(image, es), e) && Run(image, es).hasConnection
    ensures var r := Run(image, es);
            var n := Step(r, e);
            && (!n.hasConnection <==>
                  || e.Stop?
                  || (e.Serve? && (e.read.Broken? || e.read.TooLong?))
                  || (e.PollAt? && e.poll.Ready? && (e.poll.read.Broken? || e.poll.read.TooLong?))
                  || (e.PollAt? && e.poll.Idle? && TimedOut(r.connection, e.now)))
            && (!n.hasConnection ==> if Owns(r.domain.lease, Control.DIRECT) then n.domain == r.domain
                else Vacant(n.domain))
  {
    InvRun(image, es);
    var r := Run(image, es);
    LoseVacates(r.domain, Disconnect, r.connection.client);
    LoseVacates(r.domain, HeartbeatTimeout, r.connection.client);
  }

  /** Stopping a running runner leaves no IPC owner; with no connection it takes the lease from
      a direct caller too. */
  lemma StopIsSafe(image: seq<U8>, es: seq<Event>)
    requires Legal(image, es) && Run(image, es).running
    ensures var r := Run(image, es);
            var n := StopRunner(r);
            && !n.running && !n.hasConnection && !n.bound
            && if r.hasConnection && Owns(r.domain.lease, Control.DIRECT) then n.domain == r.domain
                else Vacant(n.domain)
  {
    InvRun(image, es);
    var r := Run(image, es);
    if r.hasConnection {
      LoseVacates(r.domain, Disconnect, r.connection.client);
    }
  }

  // ---- Heartbeats ----

  /** A heartbeat revocation at time t: no line was served to this client by a timed poll in the
      preceding timeout. */
  lemma HeartbeatMeansSilence(image: seq<U8>, es: seq<Event>, now: nat, k: nat)
    requires Legal(image, es)
    requires var r := Run(image, es);
             r.clock <= now && r.nextClient < Control.DIRECT && Ends(r, PollAt(now, Idle)) && k < |r.served|
    ensures var r := Run(image, es);
            r.served[k].polled ==> r.served[k].at + r.connection.timeout <= now
  {
    InvRun(image, es);
  }

  /** An idle poll ends the connection exactly if heartbeats are on and the timeout has passed since
      a timed poll last served a line or, without one, since the accept. */
  lemma TimeoutIff(image: seq<U8>, es: seq<Event>, now: nat)
    requires Legal(image, es) && Run(image, es).hasConnection && Run(image, es).clock <= now
    ensures var r := Run(image, es);
            Ends(r, PollAt(now, Idle)) <==>
              r.connection.heartbeat && LastBeat(r.served, r.acceptedAt) + r.connection.timeout <= now
  {
    InvRun(image, es);
  }

  /** Lines served by the untimed call do not count as heartbeats: a client that is served one at
      time 99 still loses its lease at 100 with a timeout of 100. */
  lemma UntimedServeIsNoHeartbeat(image: seq<U8>)
    ensures var es := [Start(true, 100), Accept(0, true), Serve(99, Line(Some(AcquireLease)))];
            var r := Run(image, es);
            && Legal(image, es) && r.served == [Served(99, false)]
            && Owns(r.domain.lease, r.connection.client) && Ends(r, PollAt(100, Idle))
  {
    var es := [Start(true, 100), Accept(0, true), Serve(99, Line(Some(AcquireLease)))];
    assert es[..2][..1] == es[..1] && es[..1][..0] == [];
    var a := Step(Init(image), es[0]);
    var b := Step(a, es[1]);
    assert Run(image, es[..1]) == a && Legal(image, es[..1]);
    assert Run(image, es[..2]) == b && Legal(image, es[..2]);
    assert Run(image, es) == Step(b, es[2]);
  }

  // ---- Stale submissions ----

  /** A submission is answered as accepted although the domain turned it down exactly if its sender
      owns the lease and its sequence is older than the last one accepted; it then changes neither
      the state nor the lease. */
  lemma StaleIsAnsweredAsAccepted(d: Domain, client: U32, ownerId: Option<U32>, state: State, sequence: U64)
    ensures var c := SubmitState(ownerId, state, sequence);
            var stale := ownerId == Some(client) && Owns(d.lease, client) && sequence < d.lease.lastSequence;
            && ((Respond(d, client, c) == StateAccepted(sequence) &&
                Execute(d, client, c).metrics.accepted == d.metrics.accepted)
                <==> stale)
            && (stale ==> Execute(d, client, c) == Rejected(d))
  {
  }

  const ACQUIRING := [Start(true, 0), Accept(0, true), PollAt(0, Ready(true, Line(Some(AcquireLease))))]

  lemma FirstClientAcquires(image: seq<U8>)
    ensures Legal(image, ACQUIRING)
    ensures var r := Run(image, ACQUIRING);
            && r.running && r.hasConnection && r.connection.client == 1 && r.clock == 0 && r.nextClient == 2
            && r.domain == Fresh(image).(lease := Lease(true, 1, 0))
  {
    var es := ACQUIRING;
    var r1 := Step(Init(image), es[0]);
    var r2 := Step(r1, es[1]);
    assert es[..2][..1] == es[..1] && es[..1][..0] == [];
    assert Legal(image, []) && Run(image, es[..1]) == r1 && Legal(image, es[..1]);
    assert Run(image, es[..2]) == r2 && Legal(image, es[..2]);
  }

  /** Such a run: the client submits number 5, then number 4, and is told that 4 was accepted while
      the state stays that of number 5. */
  lemma StaleSubmission(image: seq<U8>, a: State, b: State)
    ensures var es := ACQUIRING + [PollAt(0, Ready(true, Line(Some(SubmitState(Some(1), a, 5)))))];
            var r, late := Run(image, es), SubmitState(Some(1), b, 4);
            && Legal(image, es) && Enabled(r, PollAt(0, Ready(true, Line(Some(late)))))
            && Respond(r.domain, 1, late) == StateAccepted(4)
            && Step(r, PollAt(0, Ready(true, Line(Some(late))))).domain.state == a
  {
    var e := PollAt(0, Ready(true, Line(Some(SubmitState(Some(1), a, 5)))));
    FirstClientAcquires(image);
    assert (ACQUIRING + [e])[..3] == ACQUIRING;
    assert Run(image, ACQUIRING + [e]) == Step(Run(image, ACQUIRING), e);
  }

  // ---- Client ids ----

  lemma NextClientGrows(r: Runner, e: Event)
    ensures r.nextClient <= Step(r, e).nextClient
  {
  }

  /** If nobody was connected at i, whoever is connected at j came later and has a later id. */
  lemma {:induction false} LaterIds(image: seq<U8>, es: seq<Event>, i: nat, j: nat)
    requires Legal(image, es) && i <= j <= |es| && !Run(image, es[..i]).hasConnection
    ensures Run(image, es[..i]).nextClient <= Run(image, es[..j]).nextClient
    ensures Run(image, es[..j]).hasConnection ==>
        Run(image, es[..i]).nextClient <= Run(image, es[..j]).connection.client
    decreases j
  {
    if i < j {
      LaterIds(image, es, i, j - 1);
      assert es[..j][..j - 1] == es[..j - 1];
      LegalPrefix(image, es, j);
      var r, e := Run(image, es[..j - 1]), es[j - 1];
      NextClientGrows(r, e);
      if Step(r, e).hasConnection {
        ConnectionFrom(r, e);
      }
    }
  }

  lemma {:induction false} LegalPrefix(image: seq<U8>, es: seq<Event>, n: nat)
    requires Legal(image, es) && n <= |es|
    ensures Legal(image, es[..n])
    decreases |es|
  {
    if n < |es| {
      LegalPrefix(image, es[..|es| - 1], n);
      assert es[..|es| - 1][..n] == es[..n];
    } else {
      assert es[..n] == es;
    }
  }

  lemma ConnectionFrom(r: Runner, e: Event)
    requires Enabled(r, e) && Step(r, e).hasConnection
    ensures if r.hasConnection then Step(r, e).connection.client == r.connection.client
            else Step(r, e).connection.client == r.nextClient
  {
  }

  /** No client id is ever used for a second connection. */
  lemma ClientIdsNeverReturn(image: seq<U8>, es: seq<Event>, i: nat, k: nat, j: nat)
    requires Legal(image, es) && i <= k <= j <= |es|
    requires Run(image, es[..i]).hasConnection && !Run(image, es[..k]).hasConnection &&
        Run(image, es[..j]).hasConnection
    ensures Run(image, es[..i]).connection.client < Run(image, es[..j]).connection.client
  {
    LegalPrefix(image, es, i);
    InvRun(image, es[..i]);
    GrowsBetween(image, es, i, k);
    LaterIds(image, es, k, j);
  }

  lemma {:induction false} GrowsBetween(image: seq<U8>, es: seq<Event>, i: nat, k: nat)
    requires i <= k <= |es|
    ensures Run(image, es[..i]).nextClient <= Run(image, es[..k]).nextClient
    decreases k
  {
    if i < k {
      GrowsBetween(image, es, i, k - 1);
      assert es[..k][..k - 1] == es[..k - 1];
      NextClientGrows(Run(image, es[..k - 1]), es[k - 1]);
    }
  }
}
