/** The IPC runner object, proved against the session machine. Sockets are parameters: whether
    listening and accepting succeed, what a readiness check says and what a read yields. */
module IpcRunner {
  import opened ControllerState
  import opened Options
  import opened DomainModel
  import Control
  import opened IpcSession

  /** The adapter: one command of one client against the control surface. */
  method ExecuteCommand(control: Control.Surface, client: U32, command: Command) returns (response: Response)
    requires control.app.Valid()
    modifies control.app`state, control.app`metrics, control.app.lock, control.app.lease
    ensures control.app.Valid()
    ensures control.app.Value() == Execute(old(control.app.Value()), client, command)
    ensures response == Respond(old(control.app.Value()), client, command)
  {
    match command
    case Hello => return HelloOk(client);
    case AcquireLease =>
      var code := control.AcquireClient(client);
      return if code == Control.Busy then OwnerBusyError else Acquired(client);
    case ReleaseLease(id) =>
      if id != Some(client) {
        return NotOwnerError;
      }
      var code := control.Revoke(Release, client);
      return if code == Control.NotTheOwner then NotOwnerError else Released;
    case SubmitState(id, state, sequence) =>
      if id != Some(client) {
        control.app.RecordRejected();
        return NotOwnerError;
      }
      var code := control.SubmitClientState(client, state, sequence);
      return if code == Control.NotTheOwner then NotOwnerError else StateAccepted(sequence);
    case GetStatus =>
      var status := control.app.ReadStatus();
      return StatusIs(status);
  }

  class IpcLoop {
    const control: Control.Surface
    var running: bool
    var bound: bool
    var hasConnection: bool
    var connection: Connection
    var nextClient: nat
    var timeout: nat
    ghost var clock: nat
    ghost var served: seq<Served>
    ghost var acceptedAt: nat

    ghost predicate Valid()
      reads this, control.app, control.app.lock, control.app.switchboard.flash
    {
      control.app.Valid()
    }

    ghost function State(): Runner
      reads this, control.app, control.app.lease, control.app.switchboard, control.app.switchboard.flash,
          control.app.switchboard.flash.data
    {
      Runner(running, bound, hasConnection, connection, nextClient, timeout, control.app.Value(), clock, served,
          acceptedAt)
    }

    constructor (control: Control.Surface)
      requires control.app.Valid() && control.app.Value() == Fresh(control.app.switchboard.flash.data[..])
      ensures Valid() && this.control == control
      ensures State() == Init(control.app.switchboard.flash.data[..])
    {
      this.control := control;
      running, bound, hasConnection, connection := false, true, false, CLOSED;
      nextClient, timeout, clock, served, acceptedAt := 1, 0, 0, [], 0;
    }

    method Start(listens: bool, newTimeout: nat)
      requires Valid()
      modifies this`running, this`bound, this`hasConnection, this`timeout
      ensures Valid() && State() == Step(old(State()), Event.Start(listens, newTimeout))
    {
      if running {
        return;
      }
      bound := true;
      if !listens {
        bound := false;
        return;
      }
      timeout := newTimeout;
      running := true;
      hasConnection := false;
    }

    method AcceptAt(passed: nat, accepted: bool)
      requires Valid()
      modifies this`hasConnection, this`connection, this`nextClient, this`served, this`acceptedAt
      ensures Valid() && State() == IpcSession.AcceptAt(old(State()), passed, accepted)
    {
      if !running || hasConnection {
        return;
      }
      connection := CLOSED;
      if !accepted {
        return;
      }
      connection := Connection(true, nextClient % 0x1_0000_0000, passed, timeout, timeout > 0);
      nextClient := nextClient + 1;
      hasConnection := true;
      served, acceptedAt := [], passed;
    }

    method LoseConnection(reason: Reason)
      requires Valid()
      modifies this`hasConnection, this`connection, control.app`state, control.app.lock, control.app.lease
      ensures Valid() && State() == Lose(old(State()), reason)
    {
      var code := control.Revoke(reason, connection.client);
      connection := CLOSED;
      hasConnection := false;
    }

    /** `answered` says whether a line was complete and what the client is sent for it. */
    method ServeAt(now: nat, polled: bool, read: Read) returns (answered: Option<Response>)
      requires Valid()
      modifies this`hasConnection, this`connection, this`served,
               control.app`state, control.app`metrics, control.app.lock, control.app.lease
      ensures Valid() && State() == IpcSession.ServeAt(old(State()), now, polled, read)
      ensures old(running && hasConnection) && read.Line? && read.command.Some? ==>
                answered == Some(Respond(old(control.app.Value()), old(connection.client), read.command.value))
    {
      answered := None;
      if !running || !hasConnection {
        return;
      }
      match read
      case Broken => LoseConnection(Disconnect);
      case TooLong => LoseConnection(Disconnect);
      case Partial =>
      case Line(command) =>
        if polled && connection.heartbeat {
          connection := connection.(heartbeatAt := now);
        }
        served := served + [Served(now, polled)];
        if command.Some? {
          var response := ExecuteCommand(control, connection.client, command.value);
          answered := Some(response);
        }
    }

    method PollOnceAt(now: nat, poll: Poll)
      requires Valid()
      modifies this, control.app`state, control.app`metrics, control.app.lock, control.app.lease
      ensures Valid() && State() == Step(old(State()), PollAt(now, poll))
    {
      clock := now;
      if !running || poll.CheckFailed? {
        return;
      }
      if !hasConnection {
        if poll.Ready? {
          AcceptAt(now, poll.accepted);
        }
        return;
      }
      if poll.Idle? {
        CheckHeartbeat(now);
        return;
      }
      var answered := ServeAt(now, true, poll.read);
    }

    method CheckHeartbeat(now: nat)
      requires Valid()
      modifies this`hasConnection, this`connection, control.app`state, control.app.lock, control.app.lease
      ensures Valid()
      ensures State() == if TimedOut(old(connection), now) then Lose(old(State()), HeartbeatTimeout) else old(State())
    {
      if !connection.heartbeat || now < connection.heartbeatAt {
        return;
      }
      var elapsed := now - connection.heartbeatAt;
      if elapsed < connection.timeout {
        return;
      }
      LoseConnection(HeartbeatTimeout);
    }

    method Stop()
      requires Valid()
      modifies this`running, this`bound, this`hasConnection, this`connection, control.app`state, control.app.lock,
          control.app.lease
      ensures Valid() && State() == Step(old(State()), Event.Stop)
    {
      if !running && !hasConnection {
        return;
      }
      if hasConnection {
        LoseConnection(Disconnect);
      } else if bound {
        var code := control.Revoke(Shutdown, 0);
      }
      running, bound := false, false;
    }
  }
}
