/** The domain object as the source has it: a lease object and state fields changed in place
    under a lock that every return path gives back. */
module DomainObject {
  import opened ControllerState
  import opened Options
  import opened DomainModel
  import Dispatcher
  import InputReport
  import Spi

  /** The lock as one thread uses it; what other threads may do is the SpinLock module's subject. */
  class Lock {
    var held: bool

    constructor ()
      ensures !held
    {
      held := false;
    }

    method Acquire()
      requires !held
      modifies this
      ensures held
    {
      held := true;
    }

    method Release()
      requires held
      modifies this
      ensures !held
    {
      held := false;
    }
  }

  datatype LeaseResult = LeaseOk | LeaseBusy | LeaseNotOwner

  class LeaseObject {
    var hasOwner: bool
    var ownerClientId: U32
    var lastSequence: U64

    function Snapshot(): Lease
      reads this
    {
      Lease(hasOwner, ownerClientId, lastSequence)
    }

    constructor ()
      ensures Snapshot() == FREE
    {
      hasOwner, ownerClientId, lastSequence := false, 0, 0;
    }

    method Acquire(client: U32) returns (result: LeaseResult)
      modifies this
      ensures result == if old(hasOwner && ownerClientId != client) then LeaseBusy else LeaseOk
      ensures Snapshot() == if result == LeaseOk then old(Snapshot()).(hasOwner := true, owner := client)
          else old(Snapshot())
    {
      if hasOwner && ownerClientId != client {
        return LeaseBusy;
      }
      hasOwner := true;
      ownerClientId := client;
      return LeaseOk;
    }

    method AcceptSequence(client: U32, sequence: U64) returns (result: LeaseResult)
      modifies this`lastSequence
      ensures result == if Owns(old(Snapshot()), client) then LeaseOk else LeaseNotOwner
      ensures Snapshot() == if result == LeaseOk then old(Snapshot()).(lastSequence := sequence) else old(Snapshot())
    {
      if !hasOwner || ownerClientId != client {
        return LeaseNotOwner;
      }
      lastSequence := sequence;
      return LeaseOk;
    }

    method Release(client: U32) returns (result: LeaseResult)
      modifies this
      ensures result == if Owns(old(Snapshot()), client) then LeaseOk else LeaseNotOwner
      ensures Snapshot() == if result == LeaseOk then FREE else old(Snapshot())
    {
      if !hasOwner || ownerClientId != client {
        return LeaseNotOwner;
      }
      Revoke();
      return LeaseOk;
    }

    method RevokeIfOwner(client: U32) returns (revoked: bool)
      modifies this
      ensures revoked == Owns(old(Snapshot()), client)
      ensures Snapshot() == if revoked then FREE else old(Snapshot())
    {
      if !hasOwner || ownerClientId != client {
        return false;
      }
      Revoke();
      return true;
    }

    method Revoke()
      modifies this
      ensures Snapshot() == FREE
    {
      hasOwner, ownerClientId, lastSequence := false, 0, 0;
    }
  }

  class App {
    const lock: Lock
    const lease: LeaseObject
    const switchboard: Dispatcher.Switchboard
    var state: State
    var metrics: Metrics
    var daemon: Daemon
    var hardware: Hardware
    var rumble: Rumble

    ghost predicate Valid()
      reads this, lock, switchboard.flash
    {
      !lock.held && switchboard.flash.Valid() && switchboard.flash.fallback == Spi.ERASED
    }

    ghost function Value(): Domain
      reads this, lease, switchboard, switchboard.flash, switchboard.flash.data
    {
      Domain(lease.Snapshot(), state, metrics, daemon, hardware, rumble, switchboard.lights, switchboard.flash.data[..])
    }

    constructor (flash: Spi.Flash)
      requires flash.Valid() && flash.fallback == Spi.ERASED
      ensures Valid() && fresh(lock) && fresh(lease) && fresh(switchboard) && switchboard.flash == flash
      ensures Value() == Fresh(flash.data[..])
    {
      lock := new Lock();
      lease := new LeaseObject();
      switchboard := new Dispatcher.Switchboard(flash);
      state, metrics, daemon, hardware := NEUTRAL, NO_METRICS, Daemon(0, LifecycleStopped, false), Hardware(0, 0, 0);
      rumble := Rumble(RUMBLE_NEUTRAL, 0, false);
    }

    method Acquire(client: U32) returns (code: Code)
      requires Valid()
      modifies lock, lease
      ensures Valid() && (Value(), Plain(code)) == Apply(old(Value()), Op.Acquire(client))
    {
      lock.Acquire();
      var result := lease.Acquire(client);
      lock.Release();
      return if result == LeaseOk then Ok else OwnerBusy;
    }

    method SetState(client: U32, newState: State, sequence: U64) returns (code: Code)
      requires Valid()
      modifies this`state, this`metrics, lock, lease
      ensures Valid() && (Value(), Plain(code)) == Apply(old(Value()), Op.SetState(client, newState, sequence))
    {
      lock.Acquire();
      var snapshot := lease.Snapshot();
      if !snapshot.hasOwner || snapshot.owner != client {
        metrics := metrics.(rejected := metrics.rejected + 1);
        lock.Release();
        return NotOwner;
      }
      if sequence < snapshot.lastSequence {
        metrics := metrics.(rejected := metrics.rejected + 1);
        lock.Release();
        return StaleSequence;
      }
      var accepted := lease.AcceptSequence(client, sequence);
      if accepted != LeaseOk {
        assert false; // the snapshot was taken under the same lock
      }
      state := newState;
      metrics := metrics.(accepted := metrics.accepted + 1);
      lock.Release();
      return Ok;
    }

    method Revoke(reason: Reason, client: U32) returns (code: Code)
      requires Valid()
      modifies this`state, lock, lease
      ensures Valid() && (Value(), Plain(code)) == Apply(old(Value()), Op.Revoke(reason, client))
    {
      lock.Acquire();
      match reason
      case Release =>
        var released := lease.Release(client);
        if released != LeaseOk {
          lock.Release();
          return NotOwner;
        }
        state := NEUTRAL;
        lock.Release();
        return Ok;
      case Shutdown =>
        lease.Revoke();
        state := NEUTRAL;
        lock.Release();
        return Ok;
      case UnknownReason =>
        lock.Release();
        return InvalidArgument;
      case _ =>
        var revoked := lease.RevokeIfOwner(client);
        if revoked {
          state := NEUTRAL;
        }
        lock.Release();
        return Ok;
    }

    method ReadControllerState() returns (out: State)
      requires Valid()
      modifies lock
      ensures Valid() && (Value(), StateAnswer(out)) == Apply(old(Value()), ReadState)
    {
      lock.Acquire();
      out := state;
      lock.Release();
    }

    method ReadStatus() returns (out: Status)
      requires Valid()
      modifies lock
      ensures Valid() && (Value(), StatusAnswer(out)) == Apply(old(Value()), Op.ReadStatus)
    {
      lock.Acquire();
      out := Status(lease.Snapshot(), state, rumble, metrics, daemon, hardware);
      lock.Release();
    }

    method SetDaemonStatus(status: Daemon)
      requires Valid()
      modifies this`daemon, lock
      ensures Valid() && Value() == Apply(old(Value()), SetDaemon(status)).0
    {
      lock.Acquire();
      daemon := status;
      lock.Release();
    }

    method SetHardwareApproval(approved: bool)
      requires Valid()
      modifies this`daemon, lock
      ensures Valid() && Value() == Apply(old(Value()), SetApproval(approved)).0
    {
      lock.Acquire();
      daemon := daemon.(approved := approved);
      lock.Release();
    }

    method SetHardwareStatus(status: Hardware)
      requires Valid()
      modifies this`hardware, lock
      ensures Valid() && Value() == Apply(old(Value()), SetHardware(status)).0
    {
      lock.Acquire();
      hardware := status;
      lock.Release();
    }

    method SetDaemonLifecycle(lifecycle: Lifecycle)
      requires Valid()
      modifies this`daemon, lock
      ensures Valid() && Value() == Apply(old(Value()), SetLifecycle(lifecycle)).0
    {
      lock.Acquire();
      daemon := daemon.(lifecycle := lifecycle);
      lock.Release();
    }

    method RecordRejected()
      requires Valid()
      modifies this`metrics, lock
      ensures Valid() && Value() == Apply(old(Value()), Op.RecordRejected).0
    {
      lock.Acquire();
      metrics := metrics.(rejected := metrics.rejected + 1);
      lock.Release();
    }

    method RecordTick(now: nat, sendOk: bool) returns (code: Code)
      requires Valid()
      modifies this`metrics, lock
      ensures Valid() && (Value(), Plain(code)) == Apply(old(Value()), Op.RecordTick(now, sendOk))
    {
      lock.Acquire();
      if metrics.lastTick.Some? && now < metrics.lastTick.value {
        lock.Release();
        return InvalidArgument;
      }
      metrics := metrics.(ticks := metrics.ticks + 1);
      if sendOk {
        metrics := metrics.(sentOk := metrics.sentOk + 1);
      } else {
        metrics := metrics.(sentFailed := metrics.sentFailed + 1);
      }
      if metrics.lastTick.Some? {
        var interval := now - metrics.lastTick.value;
        metrics := metrics.(intervals := metrics.intervals + 1);
        metrics := metrics.(intervalTotal := metrics.intervalTotal + interval);
        metrics := metrics.(intervalAverage := metrics.intervalTotal / metrics.intervals);
        if interval > metrics.intervalMax {
          metrics := metrics.(intervalMax := interval);
        }
      }
      metrics := metrics.(lastTick := Some(now));
      lock.Release();
      return Ok;
    }

    method RecordRumble(payload: RumbleBytes, at: nat)
      requires Valid()
      modifies this`rumble, lock
      ensures Valid() && Value() == Apply(old(Value()), Op.RecordRumble(payload, at)).0
    {
      lock.Acquire();
      rumble := rumble.(raw := payload);
      rumble := rumble.(updatedAt := at);
      rumble := rumble.(updated := true);
      lock.Release();
    }

    method HandleOutputReport(report: OutputReport, options: InputReport.ReportOptions, deviceInfo: seq<U8>, at: nat)
      returns (code: Code, response: Dispatcher.DispatchResult)
      requires Valid()
      modifies this`rumble, lock, switchboard`lights
      ensures Valid() &&
          (Value(), OutputAnswer(code, response)) == Apply(old(Value()), HandleOutput(report, options, deviceInfo, at))
    {
      lock.Acquire();
      rumble := Rumble(report.rumble, at, true);
      response := switchboard.Handle(
        Dispatcher.Context(state, options, switchboard.flash.data[..], Spi.ERASED, deviceInfo), report.sub);
      lock.Release();
      return OutputCode(response), response;
    }
  }
}
