/** Every field of the domain and every answer, told from the history of operations alone. */
module DomainHistory {
  import opened ControllerState
  import opened Options
  import opened DomainModel
  import Dispatcher

  // ---- The fields besides lease, state and metrics ----

  /** The daemon status: the last one set, with any lifecycle or approval set since. */
  function DaemonOf(ops: seq<Op>): Daemon {
    if ops == [] then Daemon(0, LifecycleStopped, false) else
    var before := DaemonOf(ops[..|ops| - 1]);
    match ops[|ops| - 1]
    case SetDaemon(daemon) => daemon
    case SetLifecycle(lifecycle) => Daemon(before.backend, lifecycle, before.approved)
    case SetApproval(approved) => Daemon(before.backend, before.lifecycle, approved)
    case _ => before
  }

  function HardwareOf(ops: seq<Op>): Hardware {
    if ops == [] then Hardware(0, 0, 0)
    else if ops[|ops| - 1].SetHardware? then ops[|ops| - 1].hardware
    else HardwareOf(ops[..|ops| - 1])
  }

  /** The rumble bytes of the last output report or record, with their time. */
  function RumbleOf(ops: seq<Op>): Rumble {
    if ops == [] then Rumble([0x00, 0x01, 0x40, 0x40, 0x00, 0x01, 0x40, 0x40], 0, false) else
    match ops[|ops| - 1]
    case RecordRumble(payload, at) => Rumble(payload, at, true)
    case HandleOutput(report, _, _, at) => Rumble(report.rumble, at, true)
    case _ => RumbleOf(ops[..|ops| - 1])
  }

  /** The byte an output report sets the player lights to, if it does. */
  function LightsByte(op: Op): Option<U8> {
    if !op.HandleOutput? || op.report.sub.None? then None else
    var sub := op.report.sub.value;
    if sub.id == 0x30 && sub.data.Some? && sub.data.value != [] then Some(sub.data.value[0]) else None
  }

  function LightsAfter(ops: seq<Op>): Dispatcher.Lights {
    if ops == [] then Dispatcher.Lights(0, 0, 0, 0, false)
    else if LightsByte(ops[|ops| - 1]).Some? then Dispatcher.LightsOf(LightsByte(ops[|ops| - 1]).value)
    else LightsAfter(ops[..|ops| - 1])
  }

  predicate RestTold(image: seq<U8>, d: Domain, ops: seq<Op>) {
    && d.daemon == DaemonOf(ops) && d.hardware == HardwareOf(ops) && d.rumble == RumbleOf(ops)
    && d.lights == LightsAfter(ops) && d.image == image
  }

  /** What one operation does to these fields. */
  lemma RestAfter(d: Domain, op: Op)
    ensures var n := Apply(d, op).0;
            && n.image == d.image
            && n.hardware == (if op.SetHardware? then op.hardware else d.hardware)
            && n.lights == (if LightsByte(op).Some? then Dispatcher.LightsOf(LightsByte(op).value) else d.lights)
  {
    if op.HandleOutput? {
      Dispatcher.LightsChangeIff(OutputContext(d, op.options, op.deviceInfo), d.lights, op.report.sub);
    }
  }

  lemma RestStep(image: seq<U8>, d: Domain, ops: seq<Op>, op: Op)
    requires RestTold(image, d, ops)
    ensures RestTold(image, Apply(d, op).0, ops + [op])
  {
    assert (ops + [op])[..|ops|] == ops;
    RestAfter(d, op);
  }

  /** In every history of a fresh domain the status fields, the rumble, the player lights and the flash
      image are what the last operations on each of them say. */
  lemma {:induction false} StatusIsTold(image: seq<U8>, ops: seq<Op>)
    ensures RestTold(image, Replay(Fresh(image), ops), ops)
    decreases |ops|
  {
    if ops != [] {
      StatusIsTold(image, ops[..|ops| - 1]);
      RestStep(image, Replay(Fresh(image), ops[..|ops| - 1]), ops[..|ops| - 1], ops[|ops| - 1]);
      assert ops == ops[..|ops| - 1] + [ops[|ops| - 1]];
    }
  }

  // ---- The answers ----

  /** The state told from the history. */
  function StateOf(image: seq<U8>, ops: seq<Op>): State {
    var last := LastAccepted(Fresh(image), ops);
    if last.Some? then last.value.state else NEUTRAL
  }

  function LeaseOf(image: seq<U8>, ops: seq<Op>): Lease {
    var owner, last := OwnerOf(ops), LastAccepted(Fresh(image), ops);
    if owner.None? then FREE else Lease(true, owner.value, if last.Some? then last.value.sequence else 0)
  }

  /** What a submission is answered. */
  function SubmissionCode(image: seq<U8>, ops: seq<Op>, client: U32, sequence: U64): Code {
    var last := LastAccepted(Fresh(image), ops);
    if OwnerOf(ops) != Some(client) then NotOwner
    else if last.Some? && sequence < last.value.sequence then StaleSequence
    else Ok
  }

  /** What a revocation is answered: only a release is refused, and only to a client that is not the
      owner. */
  function RevocationCode(ops: seq<Op>, reason: Reason, client: U32): Code {
    match reason
    case Release => if OwnerOf(ops) == Some(client) then Ok else NotOwner
    case UnknownReason => InvalidArgument
    case _ => Ok
  }

  /** What an output report is answered, from the state, the lights and the image told by the history. */
  function OutputAnswerOf(image: seq<U8>, ops: seq<Op>, op: Op): Answer
    requires op.HandleOutput?
  {
    var c := Dispatcher.Context(StateOf(image, ops), op.options, image, 0xFF, op.deviceInfo);
    var response := Dispatcher.Dispatch(c, LightsAfter(ops), op.report.sub).0;
    OutputAnswer(if response.Replied? then Ok else InvalidArgument, response)
  }

  function AnswerOf(image: seq<U8>, ops: seq<Op>, op: Op): Answer {
    match op
    case Acquire(client) => Plain(if OwnerOf(ops) in {None, Some(client)} then Ok else OwnerBusy)
    case SetState(client, _, sequence) => Plain(SubmissionCode(image, ops, client, sequence))
    case Revoke(reason, client) => Plain(RevocationCode(ops, reason, client))
    case ReadState => StateAnswer(StateOf(image, ops))
    case ReadStatus =>
      StatusAnswer(Status(LeaseOf(image, ops), StateOf(image, ops), RumbleOf(ops),
                          Replay(Fresh(image), ops).metrics, DaemonOf(ops), HardwareOf(ops)))
    case RecordTick(now, _) =>
      var ticks := Recorded(Fresh(image), ops);
      Plain(if ticks != [] && now < ticks[|ticks| - 1].at then InvalidArgument else Ok)
    case HandleOutput(_, _, _, _) => OutputAnswerOf(image, ops, op)
    case _ => Plain(Ok)
  }

  lemma LeaseTold(image: seq<U8>, ops: seq<Op>)
    ensures var d := Replay(Fresh(image), ops); d.lease == LeaseOf(image, ops) && d.state == StateOf(image, ops)
  {
    StateIsFoldOfHistory(image, ops);
  }

  /** In every history every operation is answered as its history says: acquired by an owner or a first
      comer, accepted, stale or refused, read back as stored, a tick refused exactly if time went
      back. (The metrics of a status are those of `MetricsAddUp`.) */
  lemma AnswersAreTold(image: seq<U8>, ops: seq<Op>, op: Op)
    ensures Apply(Replay(Fresh(image), ops), op).1 == AnswerOf(image, ops, op)
  {
    LeaseTold(image, ops);
    StatusIsTold(image, ops);
    match op
    case RecordTick(now, sendOk) => TicksInHistory(image, ops);
    case Acquire(_) => AnswerAcquire(image, ops, op);
    case SetState(_, _, _) => AnswerSubmission(image, ops, op);
    case Revoke(_, _) => AnswerRevocation(image, ops, op);
    case _ =>
  }

  lemma AnswerAcquire(image: seq<U8>, ops: seq<Op>, op: Op)
    requires op.Acquire? && Replay(Fresh(image), ops).lease == LeaseOf(image, ops)
    ensures Apply(Replay(Fresh(image), ops), op).1 == AnswerOf(image, ops, op)
  {
  }

  lemma AnswerSubmission(image: seq<U8>, ops: seq<Op>, op: Op)
    requires op.SetState? && Replay(Fresh(image), ops).lease == LeaseOf(image, ops)
    ensures Apply(Replay(Fresh(image), ops), op).1 == AnswerOf(image, ops, op)
  {
  }

  lemma AnswerRevocation(image: seq<U8>, ops: seq<Op>, op: Op)
    requires op.Revoke? && Replay(Fresh(image), ops).lease == LeaseOf(image, ops)
    ensures Apply(Replay(Fresh(image), ops), op).1 == AnswerOf(image, ops, op)
  {
  }
}
