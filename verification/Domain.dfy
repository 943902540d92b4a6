/** The domain: the lease, the controller state it protects and the status fields, with every
    operation as a function of the whole domain, and what histories of operations mean. */
module DomainModel {
  import opened ControllerState
  import opened Options
  import InputReport
  import Dispatcher
  import Spi

  datatype Lease = Lease(hasOwner: bool, owner: U32, lastSequence: U64)

  const FREE := Lease(false, 0, 0)

  datatype Metrics = Metrics(
    ticks: nat, sentOk: nat, sentFailed: nat, intervals: nat, intervalTotal: nat, intervalMax: nat,
    lastTick: Option<nat>, accepted: nat, rejected: nat, intervalAverage: nat)

  const NO_METRICS := Metrics(0, 0, 0, 0, 0, 0, None, 0, 0, 0)

  datatype Lifecycle = LifecycleUnavailable | LifecycleStopped | LifecycleRunning
  datatype Daemon = Daemon(backend: nat, lifecycle: Lifecycle, approved: bool)
  datatype Hardware = Hardware(adapter: nat, connection: nat, channel: nat)
  type RumbleBytes = b: seq<U8> | |b| == 8 witness [0, 0, 0, 0, 0, 0, 0, 0]
  datatype Rumble = Rumble(raw: RumbleBytes, updatedAt: nat, updated: bool)

  datatype Domain = Domain(
    lease: Lease, state: State, metrics: Metrics, daemon: Daemon, hardware: Hardware,
    rumble: Rumble, lights: Dispatcher.Lights, image: seq<U8>)

  const RUMBLE_NEUTRAL: RumbleBytes := [0x00, 0x01, 0x40, 0x40, 0x00, 0x01, 0x40, 0x40]

  function Fresh(image: seq<U8>): Domain {
    Domain(FREE, NEUTRAL, NO_METRICS, Daemon(0, LifecycleStopped, false), Hardware(0, 0, 0),
           Rumble(RUMBLE_NEUTRAL, 0, false), Dispatcher.NO_LIGHTS, image)
  }

  datatype Reason = Release | Disconnect | HeartbeatTimeout | Shutdown | UnknownReason

  datatype OutputReport = OutputReport(rumble: RumbleBytes, sub: Option<Dispatcher.Subcommand>)

  datatype Op =
    | Acquire(client: U32)
    | SetState(client: U32, state: State, sequence: U64)
    | Revoke(reason: Reason, client: U32)
    | ReadState
    | ReadStatus
    | SetDaemon(daemon: Daemon)
    | SetLifecycle(lifecycle: Lifecycle)
    | SetApproval(approved: bool)
    | SetHardware(hardware: Hardware)
    | RecordTick(now: nat, sendOk: bool)
    | RecordRejected
    | RecordRumble(payload: RumbleBytes, at: nat)
    | HandleOutput(report: OutputReport, options: InputReport.ReportOptions, deviceInfo: seq<U8>, at: nat)

  datatype Code = Ok | InvalidArgument | OwnerBusy | NotOwner | StaleSequence

  /** What a status read copies out. */
  datatype Status = Status(
    lease: Lease, state: State, rumble: Rumble, metrics: Metrics, daemon: Daemon, hardware: Hardware)

  datatype Answer =
    | Plain(code: Code)
    | StateAnswer(state: State)
    | StatusAnswer(status: Status)
    | OutputAnswer(code: Code, response: Dispatcher.DispatchResult)

  // ---- Operations ----

  predicate Owns(lease: Lease, client: U32) {
    lease.hasOwner && lease.owner == client
  }

  function Rejected(d: Domain): Domain {
    d.(metrics := d.metrics.(rejected := d.metrics.rejected + 1))
  }

  function Accepted(d: Domain): Domain {
    d.(metrics := d.metrics.(accepted := d.metrics.accepted + 1))
  }

  /** The lease is gone and the controller is neutral. */
  function Vacated(d: Domain): Domain {
    d.(lease := FREE, state := NEUTRAL)
  }

  /** Nobody owns the lease and the controller is neutral. */
  predicate Vacant(d: Domain) {
    d.lease == FREE && d.state == NEUTRAL
  }

  /** A tick before the last one is refused; otherwise it is counted, and the interval to the
      last one is added up. */
  function TickMetrics(m: Metrics, now: nat, sendOk: bool): Option<Metrics> {
    if m.lastTick.Some? && now < m.lastTick.value then None else
    var counted := m.(ticks := m.ticks + 1, lastTick := Some(now),
                      sentOk := if sendOk then m.sentOk + 1 else m.sentOk,
                      sentFailed := if sendOk then m.sentFailed else m.sentFailed + 1);
    if m.lastTick.None? then Some(counted) else
    var interval := now - m.lastTick.value;
    Some(counted.(intervals := m.intervals + 1, intervalTotal := m.intervalTotal + interval,
                  intervalAverage := (m.intervalTotal + interval) / (m.intervals + 1),
                  intervalMax := if interval > m.intervalMax then interval else m.intervalMax))
  }

  function OutputContext(d: Domain, options: InputReport.ReportOptions, deviceInfo: seq<U8>): Dispatcher.Context {
    Dispatcher.Context(d.state, options, d.image, Spi.ERASED, deviceInfo)
  }

  /** Only a dispatch that produced a reply counts as handled. */
  function OutputCode(r: Dispatcher.DispatchResult): Code {
    if r.Replied? then Ok else InvalidArgument
  }

  function Apply(d: Domain, op: Op): (Domain, Answer) {
    match op
    case Acquire(client) =>
      if d.lease.hasOwner && d.lease.owner != client then (d, Plain(OwnerBusy))
      else (d.(lease := d.lease.(hasOwner := true, owner := client)), Plain(Ok))
    case SetState(client, state, sequence) =>
      if !Owns(d.lease, client) then (Rejected(d), Plain(NotOwner))
      else if sequence < d.lease.lastSequence then (Rejected(d), Plain(StaleSequence))
      else (Accepted(d.(lease := d.lease.(lastSequence := sequence), state := state)), Plain(Ok))
    case Revoke(reason, client) =>
      (match reason
       case Release => if Owns(d.lease, client) then (Vacated(d), Plain(Ok)) else (d, Plain(NotOwner))
       case Shutdown => (Vacated(d), Plain(Ok))
       case UnknownReason => (d, Plain(InvalidArgument))
       case _ => (if Owns(d.lease, client) then Vacated(d) else d, Plain(Ok)))
    case ReadState => (d, StateAnswer(d.state))
    case ReadStatus => (d, StatusAnswer(Status(d.lease, d.state, d.rumble, d.metrics, d.daemon, d.hardware)))
    case SetDaemon(daemon) => (d.(daemon := daemon), Plain(Ok))
    case SetLifecycle(lifecycle) => (d.(daemon := d.daemon.(lifecycle := lifecycle)), Plain(Ok))
    case SetApproval(approved) => (d.(daemon := d.daemon.(approved := approved)), Plain(Ok))
    case SetHardware(hardware) => (d.(hardware := hardware), Plain(Ok))
    case RecordTick(now, sendOk) =>
      (match TickMetrics(d.metrics, now, sendOk)
       case None => (d, Plain(InvalidArgument))
       case Some(m) => (d.(metrics := m), Plain(Ok)))
    case RecordRejected => (Rejected(d), Plain(Ok))
    case RecordRumble(payload, at) => (d.(rumble := Rumble(payload, at, true)), Plain(Ok))
    case HandleOutput(report, options, deviceInfo, at) =>
      var (response, lights) := Dispatcher.Dispatch(OutputContext(d, options, deviceInfo), d.lights, report.sub);
      (d.(rumble := Rumble(report.rumble, at, true), lights := lights), OutputAnswer(OutputCode(response), response))
  }

  // ---- Histories ----

  function Replay(d: Domain, ops: seq<Op>): Domain {
    if ops == [] then d else Apply(Replay(d, ops[..|ops| - 1]), ops[|ops| - 1]).0
  }

  /** What the k-th operation of the history was answered. */
  function AnswerAt(d: Domain, ops: seq<Op>, k: nat): Answer
    requires k < |ops|
  {
    Apply(Replay(d, ops[..k]), ops[k]).1
  }

  predicate AcceptedAt(d: Domain, ops: seq<Op>, k: nat)
    requires k < |ops|
  {
    ops[k].SetState? && AnswerAt(d, ops, k) == Plain(Ok)
  }

  /** Who holds the lease, told from the operations alone: the first to acquire it since it
      was last given up, released by its owner, or taken away. */
  function OwnerOf(ops: seq<Op>): Option<U32> {
    if ops == [] then None else
    var before := OwnerOf(ops[..|ops| - 1]);
    match ops[|ops| - 1]
    case Acquire(client) => if before.None? then Some(client) else before
    case Revoke(Shutdown, _) => None
    case Revoke(UnknownReason, _) => before
    case Revoke(_, client) => if before == Some(client) then None else before
    case _ => before
  }

  /** The last accepted submission of the tenure in progress. */
  function LastAccepted(d: Domain, ops: seq<Op>): (last: Option<Op>)
    ensures last.Some? ==> last.value.SetState?
  {
    if OwnerOf(ops).None? then None
    else if AcceptedAt(d, ops, |ops| - 1) then Some(ops[|ops| - 1])
    else LastAccepted(d, ops[..|ops| - 1])
  }

  /** The domain told from its history. */
  predicate Told(d: Domain, ops: seq<Op>) {
    var now, last := Replay(d, ops), LastAccepted(d, ops);
    && now.lease.hasOwner == OwnerOf(ops).Some?
    && now.lease.owner == (if OwnerOf(ops).Some? then OwnerOf(ops).value else 0)
    && (last.Some? ==> Some(last.value.client) == OwnerOf(ops))
    && now.state == (if last.Some? then last.value.state else NEUTRAL)
    && now.lease.lastSequence == (if last.Some? then last.value.sequence else 0)
  }

  lemma ReplaySnoc(d: Domain, ops: seq<Op>, op: Op, k: nat)
    requires k <= |ops|
    ensures Replay(d, ops + [op]) == Apply(Replay(d, ops), op).0
    ensures k < |ops| ==> AnswerAt(d, ops + [op], k) == AnswerAt(d, ops, k)
    ensures AnswerAt(d, ops + [op], |ops|) == Apply(Replay(d, ops), op).1
  {
    assert (ops + [op])[..|ops|] == ops;
    assert k < |ops| ==> (ops + [op])[..k] == ops[..k];
  }

  /** In every history of a fresh domain the stored state is the last accepted submission of
      the tenure in progress, neutral if there is none; without an owner the owner id and the
      sequence are 0 and the state is neutral. */
  lemma {:induction false} StateIsFoldOfHistory(image: seq<U8>, ops: seq<Op>)
    ensures Told(Fresh(image), ops)
    ensures OwnerOf(ops).None? ==> Replay(Fresh(image), ops).lease == FREE && Replay(Fresh(image), ops).state == NEUTRAL
    decreases |ops|
  {
    if ops != [] {
      var before, op := ops[..|ops| - 1], ops[|ops| - 1];
      StateIsFoldOfHistory(image, before);
    }
  }

  /** Every operation between i and j leaves the lease held. */
  predicate SameTenure(ops: seq<Op>, i: nat, j: nat)
    requires i <= j <= |ops|
  {
    forall k :: i < k <= j ==> OwnerOf(ops[..k]).Some?
  }

  lemma {:induction false} SequenceBounded(image: seq<U8>, ops: seq<Op>, i: nat, j: nat)
    requires i < j <= |ops| && AcceptedAt(Fresh(image), ops, i) && SameTenure(ops, i, j)
    ensures ops[i].sequence <= Replay(Fresh(image), ops[..j]).lease.lastSequence
    decreases j
  {
    var d := Fresh(image);
    assert ops[..j] == ops[..j - 1] + [ops[j - 1]];
    ReplaySnoc(d, ops[..j - 1], ops[j - 1], 0);
    if i < j - 1 {
      SequenceBounded(image, ops, i, j - 1);
      StateIsFoldOfHistory(image, ops[..j]);
      StateIsFoldOfHistory(image, ops[..j - 1]);
      assert OwnerOf(ops[..j]).Some?;
    }
  }

  /** Within a tenure the accepted sequence numbers never decrease. */
  lemma SequencesNeverDecrease(image: seq<U8>, ops: seq<Op>, i: nat, j: nat)
    requires i < j < |ops| && AcceptedAt(Fresh(image), ops, i) && AcceptedAt(Fresh(image), ops, j)
    requires SameTenure(ops, i, j)
    ensures ops[i].sequence <= ops[j].sequence
  {
    SequenceBounded(image, ops, i, j);
  }

  /** Exactly the owner's submissions that are not older than the last accepted one get in. */
  lemma AcceptedIff(image: seq<U8>, ops: seq<Op>, client: U32, state: State, sequence: U64)
    ensures var last := LastAccepted(Fresh(image), ops);
            Apply(Replay(Fresh(image), ops), SetState(client, state, sequence)).1 == Plain(Ok) <==>
              OwnerOf(ops) == Some(client) && (last.Some? ==> last.value.sequence <= sequence)
  {
    StateIsFoldOfHistory(image, ops);
  }

  // ---- Metrics ----

  function CountAccepted(d: Domain, ops: seq<Op>): nat {
    if ops == [] then 0 else
    CountAccepted(d, ops[..|ops| - 1]) + if AcceptedAt(d, ops, |ops| - 1) then 1 else 0
  }

  /** Submissions that were not accepted, and those refused before they got this far. */
  function CountRejected(d: Domain, ops: seq<Op>): nat {
    if ops == [] then 0 else
    var last := ops[|ops| - 1];
    CountRejected(d, ops[..|ops| - 1]) +
    if last.RecordRejected? || (last.SetState? && !AcceptedAt(d, ops, |ops| - 1)) then 1 else 0
  }

  datatype Tick = Tick(at: nat, sendOk: bool)

  /** The ticks that were recorded, with their outcomes. */
  function Recorded(d: Domain, ops: seq<Op>): seq<Tick> {
    if ops == [] then [] else
    var before, last := Recorded(d, ops[..|ops| - 1]), ops[|ops| - 1];
    if last.RecordTick? && AnswerAt(d, ops, |ops| - 1) == Plain(Ok) then before + [Tick(last.now, last.sendOk)]
        else before
  }

  function CountOutcome(ticks: seq<Tick>, sendOk: bool): nat {
    if ticks == [] then 0 else
    CountOutcome(ticks[..|ticks| - 1], sendOk) + if ticks[|ticks| - 1].sendOk == sendOk then 1 else 0
  }

  /** The time from the tick before to tick k. */
  function Gap(ticks: seq<Tick>, k: nat): int
    requires 0 < k < |ticks|
  {
    ticks[k].at - ticks[k - 1].at
  }

  predicate GreatestGap(ticks: seq<Tick>, most: nat) {
    && (forall k :: 0 < k < |ticks| ==> Gap(ticks, k) <= most)
    && (if |ticks| < 2 then most == 0 else exists k :: 0 < k < |ticks| && Gap(ticks, k) == most)
  }

  predicate TicksAddUp(m: Metrics, ticks: seq<Tick>) {
    && m.ticks == |ticks| && m.sentOk == CountOutcome(ticks, true) && m.sentFailed == CountOutcome(ticks, false)
    && m.lastTick == (if ticks == [] then None else Some(ticks[|ticks| - 1].at))
    && m.intervals == (if ticks == [] then 0 else |ticks| - 1)
    && (if ticks == [] then m.intervalTotal == 0 else ticks[0].at + m.intervalTotal == ticks[|ticks| - 1].at)
    && m.intervalAverage == (if |ticks| < 2 then 0 else m.intervalTotal / m.intervals)
    && GreatestGap(ticks, m.intervalMax)
  }

  lemma GreatestGapSnoc(ticks: seq<Tick>, t: Tick, most: nat)
    requires GreatestGap(ticks, most) && (ticks != [] ==> ticks[|ticks| - 1].at <= t.at)
    ensures var gap := if ticks == [] then 0 else t.at - ticks[|ticks| - 1].at;
            GreatestGap(ticks + [t], if gap > most then gap else most)
  {
    var more := ticks + [t];
    forall k | 0 < k < |ticks| ensures Gap(more, k) == Gap(ticks, k) {
    }
    if ticks != [] {
      assert Gap(more, |ticks|) == t.at - ticks[|ticks| - 1].at;
      if |ticks| >= 2 {
        var k :| 0 < k < |ticks| && Gap(ticks, k) == most;
        assert Gap(more, k) == most;
      }
    }
  }

  /** One more recorded tick. */
  lemma TickAdds(m: Metrics, ticks: seq<Tick>, now: nat, sendOk: bool)
    requires TicksAddUp(m, ticks)
    ensures var next := TickMetrics(m, now, sendOk);
            next.Some? ==> TicksAddUp(next.value, ticks + [Tick(now, sendOk)])
  {
    var more := ticks + [Tick(now, sendOk)];
    assert more[..|ticks|] == ticks;
    if TickMetrics(m, now, sendOk).Some? {
      GreatestGapSnoc(ticks, Tick(now, sendOk), m.intervalMax);
    }
  }

  lemma {:induction false} SubmissionsAddUp(image: seq<U8>, ops: seq<Op>)
    ensures var m := Replay(Fresh(image), ops).metrics;
            m.accepted == CountAccepted(Fresh(image), ops) && m.rejected == CountRejected(Fresh(image), ops)
    decreases |ops|
  {
    if ops != [] {
      SubmissionsAddUp(image, ops[..|ops| - 1]);
    }
  }

  /** The recorded ticks after one more operation on domain d. */
  function RecordedNext(d: Domain, op: Op, ticks: seq<Tick>): seq<Tick> {
    if op.RecordTick? && Apply(d, op).1 == Plain(Ok) then ticks + [Tick(op.now, op.sendOk)] else ticks
  }

  /** Two metrics that differ at most in the counts of submissions. */
  predicate SameTicks(m: Metrics, n: Metrics) {
    n == m.(accepted := n.accepted, rejected := n.rejected)
  }

  lemma SameTicksAddUp(m: Metrics, n: Metrics, ticks: seq<Tick>)
    requires TicksAddUp(m, ticks) && SameTicks(m, n)
    ensures TicksAddUp(n, ticks)
  {
  }

  lemma OthersKeepTicks(d: Domain, op: Op)
    requires !op.RecordTick?
    ensures SameTicks(d.metrics, Apply(d, op).0.metrics)
  {
  }

  lemma TickAnswer(d: Domain, now: nat, sendOk: bool)
    ensures var next, after := TickMetrics(d.metrics, now, sendOk), Apply(d, RecordTick(now, sendOk));
            && after.0.metrics == (if next.Some? then next.value else d.metrics)
            && (after.1 == Plain(Ok) <==> next.Some?)
  {
  }

  lemma OperationAddsUp(d: Domain, op: Op, ticks: seq<Tick>)
    requires TicksAddUp(d.metrics, ticks)
    ensures TicksAddUp(Apply(d, op).0.metrics, RecordedNext(d, op, ticks))
  {
    if op.RecordTick? {
      TickAnswer(d, op.now, op.sendOk);
      TickAdds(d.metrics, ticks, op.now, op.sendOk);
    } else {
      OthersKeepTicks(d, op);
      SameTicksAddUp(d.metrics, Apply(d, op).0.metrics, ticks);
    }
  }

  lemma {:induction false} TicksInHistory(image: seq<U8>, ops: seq<Op>)
    ensures TicksAddUp(Replay(Fresh(image), ops).metrics, Recorded(Fresh(image), ops))
    decreases |ops|
  {
    if ops == [] {
      assert GreatestGap([], 0);
    } else {
      var before, op := ops[..|ops| - 1], ops[|ops| - 1];
      var d, ticks := Replay(Fresh(image), before), Recorded(Fresh(image), before);
      TicksInHistory(image, before);
      OperationAddsUp(d, op, ticks);
      assert Recorded(Fresh(image), ops) == RecordedNext(d, op, ticks);
    }
  }

  /** In every history each submission is counted once, as accepted or rejected, and the tick
      counters are those of the recorded ticks: how many there were, how many sends worked and how
      many failed, how many intervals lie between them, their sum, average and maximum. */
  lemma MetricsAddUp(image: seq<U8>, ops: seq<Op>)
    ensures var m := Replay(Fresh(image), ops).metrics;
            && m.accepted == CountAccepted(Fresh(image), ops)
            && m.rejected == CountRejected(Fresh(image), ops)
            && TicksAddUp(m, Recorded(Fresh(image), ops))
  {
    SubmissionsAddUp(image, ops);
    TicksInHistory(image, ops);
  }
}
