/** The domain operations between lock and return as programs that touch one field of shared
    memory at a time, each return path with an unlock of its own. Left alone, every program is its
    whole operation and unlocks exactly once. */
module DomainPrograms {
  import opened ControllerState
  import opened Options
  import opened DomainModel
  import Dispatcher
  import Spi

  // ---- Shared memory, field by field ----

  const LEASE_FIELDS := 3
  const STATE_FIELDS := 11
  const RUMBLE_FIELDS := 10
  const METRIC_FIELDS := 10

  function CopyLease(to: Lease, from: Lease, i: nat): Lease {
    match i
    case 0 => to.(hasOwner := from.hasOwner)
    case 1 => to.(owner := from.owner)
    case _ => to.(lastSequence := from.lastSequence)
  }

  function CopyState(to: State, from: State, i: nat): State {
    match i
    case 0 => to.(buttons := from.buttons)
    case 1 => to.(lx := from.lx)
    case 2 => to.(ly := from.ly)
    case 3 => to.(rx := from.rx)
    case 4 => to.(ry := from.ry)
    case 5 => to.(accelX := from.accelX)
    case 6 => to.(accelY := from.accelY)
    case 7 => to.(accelZ := from.accelZ)
    case 8 => to.(gyroX := from.gyroX)
    case 9 => to.(gyroY := from.gyroY)
    case _ => to.(gyroZ := from.gyroZ)
  }

  /** The eight bytes one by one, then the time and the flag. */
  function CopyRumble(to: Rumble, from: Rumble, i: nat): Rumble {
    if i < 8 then to.(raw := to.raw[i := from.raw[i]])
    else if i == 8 then to.(updatedAt := from.updatedAt)
    else to.(updated := from.updated)
  }

  const TICKS := 0
  const SENT_OK := 1
  const SENT_FAILED := 2
  const INTERVALS := 3
  const TOTAL := 4
  const LONGEST := 5
  const LAST_TICK := 6
  const ACCEPTED := 7
  const REJECTED := 8
  const AVERAGE := 9

  function CopyMetric(to: Metrics, from: Metrics, i: nat): Metrics {
    match i
    case 0 => to.(ticks := from.ticks)
    case 1 => to.(sentOk := from.sentOk)
    case 2 => to.(sentFailed := from.sentFailed)
    case 3 => to.(intervals := from.intervals)
    case 4 => to.(intervalTotal := from.intervalTotal)
    case 5 => to.(intervalMax := from.intervalMax)
    case 6 => to.(lastTick := from.lastTick)
    case 7 => to.(accepted := from.accepted)
    case 8 => to.(rejected := from.rejected)
    case _ => to.(intervalAverage := from.intervalAverage)
  }

  function CopyDaemon(to: Daemon, from: Daemon, i: nat): Daemon {
    match i
    case 0 => to.(backend := from.backend)
    case 1 => to.(lifecycle := from.lifecycle)
    case _ => to.(approved := from.approved)
  }

  function CopyHardware(to: Hardware, from: Hardware, i: nat): Hardware {
    match i
    case 0 => to.(adapter := from.adapter)
    case 1 => to.(connection := from.connection)
    case _ => to.(channel := from.channel)
  }

  function CopyLight(to: Dispatcher.Lights, from: Dispatcher.Lights, i: nat): Dispatcher.Lights {
    match i
    case 0 => to.(raw := from.raw)
    case 1 => to.(on := from.on)
    case 2 => to.(flash := from.flash)
    case 3 => to.(effectiveFlash := from.effectiveFlash)
    case _ => to.(updated := from.updated)
  }

  // ---- Instructions ----

  /** A thread's own variables; they start with whatever memory held. */
  datatype Local = Local(status: Status, lights: Dispatcher.Lights, answer: Answer)

  datatype Point = Point(pc: nat, shared: Domain, local: Local)

  datatype Part = LeasePart | StatePart | RumblePart | MetricPart | DaemonPart | HardwarePart | LightPart

  /** Conditions on a thread's own copies. */
  datatype Test =
    | HeldByOther(client: U32)
    | NotHeldBy(client: U32)
    | Older(sequence: U64)
    | BeforeLastTick(now: nat)
    | NoLastTick
    | NotLongest(now: nat)

  datatype Instr =
    | Read(part: Part, i: nat)               // one shared field into the thread's copy
    | WriteLease(i: nat, lease: Lease)       // one field of the lease, from a value
    | WriteState(i: nat, state: State)
    | WriteRumble(i: nat, rumble: Rumble)
    | WriteDaemon(i: nat, daemon: Daemon)
    | WriteHardware(i: nat, hardware: Hardware)
    | WriteLight(i: nat)                     // from the thread's copy
    | Increment(i: nat)                      // a counter becomes the thread's copy plus one
    | AddInterval(now: nat)
    | WriteAverage
    | WriteLongest(now: nat)
    | WriteLastTick(now: nat)
    | JumpIf(test: Test, target: nat)
    | Answering(answer: Answer, target: nat) // keeps the result for the return
    | Dispatching(op: Op)                    // works on the thread's copies and the constant image
    | Unlock
    | Return(answer: Answer)
    | ReturnState
    | ReturnStatus
    | ReturnAnswer

  function Since(now: nat, m: Metrics): int {
    now - if m.lastTick.Some? then m.lastTick.value else 0
  }

  predicate Holds(t: Test, l: Local) {
    var lease, m := l.status.lease, l.status.metrics;
    match t
    case HeldByOther(client) => lease.hasOwner && lease.owner != client
    case NotHeldBy(client) => !lease.hasOwner || lease.owner != client
    case Older(sequence) => sequence < lease.lastSequence
    case BeforeLastTick(now) => m.lastTick.Some? && now < m.lastTick.value
    case NoLastTick => m.lastTick.None?
    case NotLongest(now) => Since(now, m) <= m.intervalMax
  }

  function ReadField(part: Part, i: nat, s: Domain, l: Local): Local {
    var seen := l.status;
    match part
    case LeasePart => l.(status := seen.(lease := CopyLease(seen.lease, s.lease, i)))
    case StatePart => l.(status := seen.(state := CopyState(seen.state, s.state, i)))
    case RumblePart => l.(status := seen.(rumble := CopyRumble(seen.rumble, s.rumble, i)))
    case MetricPart => l.(status := seen.(metrics := CopyMetric(seen.metrics, s.metrics, i)))
    case DaemonPart => l.(status := seen.(daemon := CopyDaemon(seen.daemon, s.daemon, i)))
    case HardwarePart => l.(status := seen.(hardware := CopyHardware(seen.hardware, s.hardware, i)))
    case LightPart => l.(lights := CopyLight(l.lights, s.lights, i))
  }

  /** All counters one up; an increment copies one of them. */
  function OneUp(m: Metrics): Metrics {
    m.(ticks := m.ticks + 1, sentOk := m.sentOk + 1, sentFailed := m.sentFailed + 1, intervals := m.intervals + 1,
       accepted := m.accepted + 1, rejected := m.rejected + 1)
  }

  function WriteMetric(i: Instr, m: Metrics, seen: Metrics): Metrics
    requires i.Increment? || i.AddInterval? || i.WriteAverage? || i.WriteLongest? || i.WriteLastTick?
  {
    match i
    case Increment(k) => CopyMetric(m, OneUp(seen), k)
    case AddInterval(now) =>
      m.(intervalTotal := seen.intervalTotal + if Since(now, seen) > 0 then Since(now, seen) else 0)
    case WriteAverage =>
      m.(intervalAverage := if seen.intervals > 0 then seen.intervalTotal / seen.intervals else 0)
    case WriteLongest(now) => m.(intervalMax := if Since(now, seen) > 0 then Since(now, seen) else 0)
    case WriteLastTick(now) => m.(lastTick := Some(now))
  }

  function Dispatched(op: Op, s: Domain, l: Local): Local
    requires op.HandleOutput?
  {
    var context := Dispatcher.Context(l.status.state, op.options, s.image, Spi.ERASED, op.deviceInfo);
    var (response, lights) := Dispatcher.Dispatch(context, l.lights, op.report.sub);
    l.(lights := lights, answer := OutputAnswer(OutputCode(response), response))
  }

  /** What one instruction does: an access or a jump, the unlocking store, or the return. */
  datatype Effect = Moved(p: Point) | Released(pc: nat) | Returned(answer: Answer)

  function Exec(i: Instr, p: Point): Effect {
    var s, l, n := p.shared, p.local, p.pc + 1;
    match i
    case Read(part, k) => Moved(Point(n, s, ReadField(part, k, s, l)))
    case WriteLease(k, v) => Moved(Point(n, s.(lease := CopyLease(s.lease, v, k)), l))
    case WriteState(k, v) => Moved(Point(n, s.(state := CopyState(s.state, v, k)), l))
    case WriteRumble(k, v) => Moved(Point(n, s.(rumble := CopyRumble(s.rumble, v, k)), l))
    case WriteDaemon(k, v) => Moved(Point(n, s.(daemon := CopyDaemon(s.daemon, v, k)), l))
    case WriteHardware(k, v) => Moved(Point(n, s.(hardware := CopyHardware(s.hardware, v, k)), l))
    case WriteLight(k) => Moved(Point(n, s.(lights := CopyLight(s.lights, l.lights, k)), l))
    case JumpIf(test, target) => Moved(Point(if Holds(test, l) && p.pc < target then target else n, s, l))
    case Answering(a, target) => Moved(Point(if p.pc < target then target else n, s, l.(answer := a)))
    case Dispatching(op) => Moved(Point(n, s, if op.HandleOutput? then Dispatched(op, s, l) else l))
    case Unlock => Released(n)
    case Return(a) => Returned(a)
    case ReturnState => Returned(StateAnswer(l.status.state))
    case ReturnStatus => Returned(StatusAnswer(l.status))
    case ReturnAnswer => Returned(l.answer)
    case _ => Moved(Point(n, s.(metrics := WriteMetric(i, s.metrics, l.status.metrics)), l))
  }

  // ---- The operations as programs ----

  function AcquireText(client: U32, pc: nat): Instr {
    match pc
    case 0 => Read(LeasePart, 0)
    case 1 => Read(LeasePart, 1)
    case 2 => JumpIf(HeldByOther(client), 6)
    case 3 => WriteLease(0, Lease(true, client, 0))
    case 4 => WriteLease(1, Lease(true, client, 0))
    case 5 => Answering(Plain(Ok), 7)
    case 6 => Answering(Plain(OwnerBusy), 7)
    case 7 => Unlock
    case _ => ReturnAnswer
  }

  function SetStateText(client: U32, state: State, sequence: U64, pc: nat): Instr {
    if pc < 3 then Read(LeasePart, pc)
    else if pc == 3 then JumpIf(NotHeldBy(client), 24)
    else if pc == 4 then JumpIf(Older(sequence), 28)
    else if pc < 7 then Read(LeasePart, pc - 5)
    else if pc == 7 then JumpIf(NotHeldBy(client), 32)
    else if pc == 8 then WriteLease(2, Lease(true, client, sequence))
    else if pc < 20 then WriteState(pc - 9, state)
    else match pc
      case 20 => Read(MetricPart, ACCEPTED)
      case 21 => Increment(ACCEPTED)
      case 22 => Unlock
      case 23 => Return(Plain(Ok))
      // not the owner
      case 24 => Read(MetricPart, REJECTED)
      case 25 => Increment(REJECTED)
      case 26 => Unlock
      case 27 => Return(Plain(NotOwner))
      // stale
      case 28 => Read(MetricPart, REJECTED)
      case 29 => Increment(REJECTED)
      case 30 => Unlock
      case 31 => Return(Plain(StaleSequence))
      // the sequence was not accepted
      case 32 => Read(MetricPart, REJECTED)
      case 33 => Increment(REJECTED)
      case 34 => Unlock
      case _ => Return(Plain(NotOwner))
  }

  /** Clearing the lease and the state, from `base` on. */
  function VacateText(base: nat, pc: nat): Instr {
    if pc < base + 3 then WriteLease(if pc < base then 0 else pc - base, FREE)
    else WriteState(pc - base - 3, NEUTRAL)
  }

  function RevokeText(reason: Reason, client: U32, pc: nat): Instr {
    match reason
    case Release =>
      if pc < 2 then Read(LeasePart, pc)
      else if pc == 2 then JumpIf(NotHeldBy(client), 19)
      else if pc < 17 then VacateText(3, pc)
      else if pc == 17 then Unlock
      else if pc == 18 then Return(Plain(Ok))
      else if pc == 19 then Unlock
      else Return(Plain(NotOwner))
    case Shutdown =>
      if pc < 14 then VacateText(0, pc) else if pc == 14 then Unlock else Return(Plain(Ok))
    case UnknownReason => if pc == 0 then Unlock else Return(Plain(InvalidArgument))
    case _ =>
      if pc < 2 then Read(LeasePart, pc)
      else if pc == 2 then JumpIf(NotHeldBy(client), 17)
      else if pc < 17 then VacateText(3, pc)
      else if pc == 17 then Unlock
      else Return(Plain(Ok))
  }

  function ReadStatusText(pc: nat): Instr {
    if pc < 3 then Read(LeasePart, pc)
    else if pc < 14 then Read(StatePart, pc - 3)
    else if pc < 24 then Read(RumblePart, pc - 14)
    else if pc < 34 then Read(MetricPart, pc - 24)
    else if pc < 37 then Read(DaemonPart, pc - 34)
    else if pc < 40 then Read(HardwarePart, pc - 37)
    else if pc == 40 then Unlock
    else ReturnStatus
  }

  function RecordTickText(now: nat, sendOk: bool, pc: nat): Instr {
    var outcome := if sendOk then SENT_OK else SENT_FAILED;
    match pc
    case 0 => Read(MetricPart, LAST_TICK)
    case 1 => JumpIf(BeforeLastTick(now), 19)
    case 2 => Read(MetricPart, TICKS)
    case 3 => Increment(TICKS)
    case 4 => Read(MetricPart, outcome)
    case 5 => Increment(outcome)
    case 6 => JumpIf(NoLastTick, 17)
    case 7 => Read(MetricPart, INTERVALS)
    case 8 => Increment(INTERVALS)
    case 9 => Read(MetricPart, TOTAL)
    case 10 => AddInterval(now)
    case 11 => Read(MetricPart, TOTAL)
    case 12 => Read(MetricPart, INTERVALS)
    case 13 => WriteAverage
    case 14 => Read(MetricPart, LONGEST)
    case 15 => JumpIf(NotLongest(now), 17)
    case 16 => WriteLongest(now)
    case 17 => WriteLastTick(now)
    case 18 => Answering(Plain(Ok), 20)
    case 19 => Answering(Plain(InvalidArgument), 20)
    case 20 => Unlock
    case _ => ReturnAnswer
  }

  function HandleOutputText(op: Op, pc: nat): Instr
    requires op.HandleOutput?
  {
    if pc < 10 then WriteRumble(pc, Rumble(op.report.rumble, op.at, true))
    else if pc < 21 then Read(StatePart, pc - 10)
    else if pc < 26 then Read(LightPart, pc - 21)
    else if pc == 26 then Dispatching(op)
    else if pc < 32 then WriteLight(pc - 27)
    else if pc == 32 then Unlock
    else ReturnAnswer
  }

  function Text(op: Op, pc: nat): Instr {
    match op
    case Acquire(client) => AcquireText(client, pc)
    case SetState(client, state, sequence) => SetStateText(client, state, sequence, pc)
    case Revoke(reason, client) => RevokeText(reason, client, pc)
    case ReadState => if pc < 11 then Read(StatePart, pc) else if pc == 11 then Unlock else ReturnState
    case ReadStatus => ReadStatusText(pc)
    case SetDaemon(d) => if pc < 3 then WriteDaemon(pc, d) else if pc == 3 then Unlock else Return(Plain(Ok))
    case SetLifecycle(x) =>
      if pc == 0 then WriteDaemon(1, Daemon(0, x, false)) else if pc == 1 then Unlock else Return(Plain(Ok))
    case SetApproval(x) =>
      if pc == 0 then WriteDaemon(2, Daemon(0, LifecycleStopped, x)) else if pc == 1 then Unlock else Return(Plain(Ok))
    case SetHardware(h) => if pc < 3 then WriteHardware(pc, h) else if pc == 3 then Unlock else Return(Plain(Ok))
    case RecordTick(now, sendOk) => RecordTickText(now, sendOk, pc)
    case RecordRejected =>
      (match pc
       case 0 => Read(MetricPart, REJECTED)
       case 1 => Increment(REJECTED)
       case 2 => Unlock
       case _ => Return(Plain(Ok)))
    case RecordRumble(payload, at) =>
      if pc < 10 then WriteRumble(pc, Rumble(payload, at, true)) else if pc == 10 then Unlock else Return(Plain(Ok))
    case HandleOutput(_, _, _, _) => HandleOutputText(op, pc)
  }

  /** No program is this long. */
  const END := 64

  function Statement(op: Op, p: Point): (e: Effect)
    requires p.pc < END
    ensures e.Moved? ==> p.pc < e.p.pc <= END
    ensures e.Released? ==> p.pc < e.pc <= END
  {
    Exec(Text(op, p.pc), p)
  }

  // ---- A program left alone ----

  /** What running the rest of an operation with nobody else in between comes to: the domain, the
      answer, and how often the lock was released on the way. */
  datatype Outcome = Outcome(shared: Domain, answer: Answer, unlocks: nat)

  function Finish(op: Op, p: Point): Outcome
    decreases END - p.pc
  {
    if p.pc >= END then Outcome(p.shared, p.local.answer, 0) else
    match Statement(op, p)
    case Moved(q) => Finish(op, q)
    case Released(pc) => var rest := Finish(op, p.(pc := pc)); rest.(unlocks := rest.unlocks + 1)
    case Returned(answer) => Outcome(p.shared, answer, 0)
  }

  lemma Go(op: Op, p: Point)
    requires p.pc < END && Statement(op, p).Moved?
    ensures Finish(op, p) == Finish(op, Statement(op, p).p)
  {
  }

  /** An unlock with the return behind it. */
  lemma Leave(op: Op, p: Point)
    requires p.pc + 1 < END && Text(op, p.pc).Unlock?
    requires Exec(Text(op, p.pc + 1), p.(pc := p.pc + 1)).Returned?
    ensures Finish(op, p) == Outcome(p.shared, Exec(Text(op, p.pc + 1), p.(pc := p.pc + 1)).answer, 1)
  {
    assert Statement(op, p) == Released(p.pc + 1);
    assert Statement(op, p.(pc := p.pc + 1)).Returned?;
  }

  // ---- Copies field by field are copies ----

  /** The first k fields agree. */
  predicate SameState(a: State, b: State, k: nat) {
    && (k > 0 ==> a.buttons == b.buttons) && (k > 1 ==> a.lx == b.lx) && (k > 2 ==> a.ly == b.ly)
    && (k > 3 ==> a.rx == b.rx) && (k > 4 ==> a.ry == b.ry) && (k > 5 ==> a.accelX == b.accelX)
    && (k > 6 ==> a.accelY == b.accelY) && (k > 7 ==> a.accelZ == b.accelZ) && (k > 8 ==> a.gyroX == b.gyroX)
    && (k > 9 ==> a.gyroY == b.gyroY) && (k > 10 ==> a.gyroZ == b.gyroZ)
  }

  predicate SameRumble(a: Rumble, b: Rumble, k: nat) {
    && (forall j :: 0 <= j < 8 && j < k ==> a.raw[j] == b.raw[j])
    && (k > 8 ==> a.updatedAt == b.updatedAt) && (k > 9 ==> a.updated == b.updated)
  }

  predicate SameMetrics(a: Metrics, b: Metrics, k: nat) {
    && (k > 0 ==> a.ticks == b.ticks) && (k > 1 ==> a.sentOk == b.sentOk) && (k > 2 ==> a.sentFailed == b.sentFailed)
    && (k > 3 ==> a.intervals == b.intervals) && (k > 4 ==> a.intervalTotal == b.intervalTotal)
    && (k > 5 ==> a.intervalMax == b.intervalMax) && (k > 6 ==> a.lastTick == b.lastTick)
    && (k > 7 ==> a.accepted == b.accepted) && (k > 8 ==> a.rejected == b.rejected)
    && (k > 9 ==> a.intervalAverage == b.intervalAverage)
  }

  predicate Reads(op: Op, part: Part, base: nat, fields: nat) {
    base + fields < END && forall pc :: base <= pc < base + fields ==> Text(op, pc) == Read(part, pc - base)
  }

  lemma {:induction false} ReadsState(op: Op, base: nat, p: Point)
    requires Reads(op, StatePart, base, STATE_FIELDS) && base <= p.pc <= base + STATE_FIELDS
    requires SameState(p.local.status.state, p.shared.state, p.pc - base)
    ensures Finish(op, p) ==
            Finish(op, Point(base + STATE_FIELDS, p.shared,
                p.local.(status := p.local.status.(state := p.shared.state))))
    decreases base + STATE_FIELDS - p.pc
  {
    if p.pc < base + STATE_FIELDS {
      assert Text(op, p.pc) == Read(StatePart, p.pc - base);
      Go(op, p);
      ReadsState(op, base, Statement(op, p).p);
    } else {
      assert p.local.status.state == p.shared.state;
    }
  }

  lemma {:induction false} ReadsRumble(op: Op, base: nat, p: Point)
    requires Reads(op, RumblePart, base, RUMBLE_FIELDS) && base <= p.pc <= base + RUMBLE_FIELDS
    requires SameRumble(p.local.status.rumble, p.shared.rumble, p.pc - base)
    ensures Finish(op, p) ==
            Finish(op, Point(base + RUMBLE_FIELDS, p.shared,
                p.local.(status := p.local.status.(rumble := p.shared.rumble))))
    decreases base + RUMBLE_FIELDS - p.pc
  {
    if p.pc < base + RUMBLE_FIELDS {
      assert Text(op, p.pc) == Read(RumblePart, p.pc - base);
      Go(op, p);
      ReadsRumble(op, base, Statement(op, p).p);
    } else {
      assert p.local.status.rumble.raw == p.shared.rumble.raw;
      assert p.local.status.rumble == p.shared.rumble;
    }
  }

  lemma {:induction false} ReadsMetrics(op: Op, base: nat, p: Point)
    requires Reads(op, MetricPart, base, METRIC_FIELDS) && base <= p.pc <= base + METRIC_FIELDS
    requires SameMetrics(p.local.status.metrics, p.shared.metrics, p.pc - base)
    ensures Finish(op, p) ==
            Finish(op, Point(base + METRIC_FIELDS, p.shared,
                p.local.(status := p.local.status.(metrics := p.shared.metrics))))
    decreases base + METRIC_FIELDS - p.pc
  {
    if p.pc < base + METRIC_FIELDS {
      assert Text(op, p.pc) == Read(MetricPart, p.pc - base);
      Go(op, p);
      ReadsMetrics(op, base, Statement(op, p).p);
    } else {
      assert p.local.status.metrics == p.shared.metrics;
    }
  }

  lemma {:induction false} WritesState(op: Op, base: nat, v: State, p: Point)
    requires base + STATE_FIELDS < END && base <= p.pc <= base + STATE_FIELDS
    requires forall pc :: base <= pc < base + STATE_FIELDS ==> Text(op, pc) == WriteState(pc - base, v)
    requires SameState(p.shared.state, v, p.pc - base)
    ensures Finish(op, p) == Finish(op, Point(base + STATE_FIELDS, p.shared.(state := v), p.local))
    decreases base + STATE_FIELDS - p.pc
  {
    if p.pc < base + STATE_FIELDS {
      WritesField(op, p, v, p.pc - base);
      WritesState(op, base, v, FieldWritten(p, v, p.pc - base));
    } else {
      assert p.shared.state == v;
    }
  }

  function FieldWritten(p: Point, v: State, i: nat): Point {
    Point(p.pc + 1, p.shared.(state := CopyState(p.shared.state, v, i)), p.local)
  }

  lemma WritesField(op: Op, p: Point, v: State, i: nat)
    requires p.pc < END && Text(op, p.pc) == WriteState(i, v) && i < STATE_FIELDS && SameState(p.shared.state, v, i)
    ensures Finish(op, p) == Finish(op, FieldWritten(p, v, i))
    ensures SameState(FieldWritten(p, v, i).shared.state, v, i + 1)
    ensures FieldWritten(p, v, i).shared.(state := v) == p.shared.(state := v)
  {
    assert Statement(op, p) == Moved(FieldWritten(p, v, i));
    Go(op, p);
  }

  lemma {:induction false} WritesRumble(op: Op, v: Rumble, p: Point)
    requires p.pc <= RUMBLE_FIELDS
    requires forall pc :: 0 <= pc < RUMBLE_FIELDS ==> Text(op, pc) == WriteRumble(pc, v)
    requires SameRumble(p.shared.rumble, v, p.pc)
    ensures Finish(op, p) == Finish(op, Point(RUMBLE_FIELDS, p.shared.(rumble := v), p.local))
    decreases RUMBLE_FIELDS - p.pc
  {
    if p.pc < RUMBLE_FIELDS {
      assert Text(op, p.pc) == WriteRumble(p.pc, v);
      Go(op, p);
      WritesRumble(op, v, Statement(op, p).p);
    } else {
      assert p.shared.rumble.raw == v.raw;
      assert p.shared.rumble == v;
    }
  }

  /** The next two steps, and the next three. */
  lemma Go2(op: Op, p: Point)
    requires p.pc + 2 < END && Statement(op, p).Moved? && Statement(op, p).p.pc < END &&
        Statement(op, Statement(op, p).p).Moved?
    ensures Finish(op, p) == Finish(op, Statement(op, Statement(op, p).p).p)
  {
    Go(op, p);
    Go(op, Statement(op, p).p);
  }

  lemma ReadsLease(op: Op, base: nat, p: Point)
    requires Reads(op, LeasePart, base, LEASE_FIELDS) && p.pc == base
    ensures Finish(op, p) ==
            Finish(op, Point(base + LEASE_FIELDS, p.shared,
                p.local.(status := p.local.status.(lease := p.shared.lease))))
  {
    assert Text(op, base) == Read(LeasePart, 0) && Text(op, base + 1) == Read(LeasePart, 1) &&
        Text(op, base + 2) == Read(LeasePart, 2);
    Go2(op, p);
    Go(op, Statement(op, Statement(op, p).p).p);
  }

  lemma ReadsDaemon(s: Domain, l: Local)
    ensures Finish(ReadStatus, Point(34, s, l)) ==
            Finish(ReadStatus, Point(37, s, l.(status := l.status.(daemon := s.daemon))))
  {
    var p := Point(34, s, l);
    Go2(ReadStatus, p);
    Go(ReadStatus, Statement(ReadStatus, Statement(ReadStatus, p).p).p);
  }

  lemma ReadsHardware(s: Domain, l: Local)
    ensures Finish(ReadStatus, Point(37, s, l)) ==
            Finish(ReadStatus, Point(40, s, l.(status := l.status.(hardware := s.hardware))))
  {
    var p := Point(37, s, l);
    Go2(ReadStatus, p);
    Go(ReadStatus, Statement(ReadStatus, Statement(ReadStatus, p).p).p);
  }

  // ---- Every program, left alone, is its operation ----

  /** The program computes the operation's result and answer and releases the lock once. */
  predicate Whole(op: Op, s: Domain, l: Local) {
    Finish(op, Point(0, s, l)) == Outcome(Apply(s, op).0, Apply(s, op).1, 1)
  }

  function NextPoint(op: Op, p: Point): Point
    requires p.pc < END && Statement(op, p).Moved?
  {
    Statement(op, p).p
  }

  lemma AcquireWhole(client: U32, s: Domain, l: Local)
    ensures Whole(Op.Acquire(client), s, l)
  {
    var op, p0 := Op.Acquire(client), Point(0, s, l);
    Go2(op, p0);
    var p2 := NextPoint(op, NextPoint(op, p0));
    Go(op, p2);
    if s.lease.hasOwner && s.lease.owner != client {
      FindsBusy(client, s, p2.local);
    } else {
      Takes(client, s, p2.local);
    }
  }

  lemma FindsBusy(client: U32, s: Domain, l: Local)
    ensures Finish(Op.Acquire(client), Point(6, s, l)) == Outcome(s, Plain(OwnerBusy), 1)
  {
    Go(Op.Acquire(client), Point(6, s, l));
    Leave(Op.Acquire(client), Point(7, s, l.(answer := Plain(OwnerBusy))));
  }

  lemma Takes(client: U32, s: Domain, l: Local)
    ensures Finish(Op.Acquire(client), Point(3, s, l)) ==
            Outcome(s.(lease := s.lease.(hasOwner := true, owner := client)), Plain(Ok), 1)
  {
    var op := Op.Acquire(client);
    Go2(op, Point(3, s, l));
    var taken := s.(lease := s.lease.(hasOwner := true, owner := client));
    Go(op, Point(5, taken, l));
    Leave(op, Point(7, taken, l.(answer := Plain(Ok))));
  }

  lemma IncrementValue(m: Metrics, seen: Metrics, i: nat)
    requires i < METRIC_FIELDS && i != TOTAL && i != LONGEST && i != LAST_TICK && i != AVERAGE
    ensures CopyMetric(m, OneUp(CopyMetric(seen, m, i)), i) == CopyMetric(m, OneUp(m), i)
  {
  }

  /** A counter is read and written back one up. */
  lemma Increments(op: Op, p: Point, i: nat)
    requires p.pc + 2 < END && Text(op, p.pc) == Read(MetricPart, i) && Text(op, p.pc + 1) == Increment(i)
    requires i < METRIC_FIELDS && i != TOTAL && i != LONGEST && i != LAST_TICK && i != AVERAGE
    ensures Finish(op, p) ==
            Finish(op, Point(p.pc + 2, p.shared.(metrics := CopyMetric(p.shared.metrics, OneUp(p.shared.metrics), i)),
                             ReadField(MetricPart, i, p.shared, p.local)))
  {
    var q := Point(p.pc + 1, p.shared, ReadField(MetricPart, i, p.shared, p.local));
    assert Statement(op, p) == Moved(q);
    Go(op, p);
    Go(op, q);
    IncrementValue(p.shared.metrics, p.local.status.metrics, i);
  }

  /** The rejecting ends of a submission. */
  lemma Rejects(op: Op, p: Point, code: Code)
    requires p.pc + 4 < END && Text(op, p.pc) == Read(MetricPart, REJECTED) && Text(op, p.pc + 1) == Increment(REJECTED)
    requires Text(op, p.pc + 2) == Unlock && Text(op, p.pc + 3) == Return(Plain(code))
    ensures Finish(op, p) == Outcome(Rejected(p.shared), Plain(code), 1)
  {
    Increments(op, p, REJECTED);
    RejectedIs(p.shared);
    LeavesWith(op, Point(p.pc + 2, Rejected(p.shared), ReadField(MetricPart, REJECTED, p.shared, p.local)), code);
  }

  lemma RejectedIs(d: Domain)
    ensures d.(metrics := CopyMetric(d.metrics, OneUp(d.metrics), REJECTED)) == Rejected(d)
  {
  }

  lemma LeavesWith(op: Op, p: Point, code: Code)
    requires p.pc + 1 < END && Text(op, p.pc) == Unlock && Text(op, p.pc + 1) == Return(Plain(code))
    ensures Finish(op, p) == Outcome(p.shared, Plain(code), 1)
  {
    Leave(op, p);
  }

  /** The accepting end of a submission, from the state on. */
  lemma SubmitFrom9(op: Op, s: Domain, l: Local)
    requires op.SetState?
    ensures Finish(op, Point(9, s, l)) == Outcome(Accepted(s.(state := op.state)), Plain(Ok), 1)
  {
    WritesState(op, 9, op.state, Point(9, s, l));
    SubmitFrom20(op, s.(state := op.state), l);
  }

  lemma SubmitFrom20(op: Op, s: Domain, l: Local)
    requires op.SetState?
    ensures Finish(op, Point(20, s, l)) == Outcome(Accepted(s), Plain(Ok), 1)
  {
    Increments(op, Point(20, s, l), ACCEPTED);
    Leave(op, Point(22, Accepted(s), ReadField(MetricPart, ACCEPTED, s, l)));
  }

  lemma SubmitFrom4(op: Op, s: Domain, l: Local)
    requires op.SetState? && Owns(s.lease, op.client) && l.status.lease == s.lease
    ensures Finish(op, Point(4, s, l)) == Outcome(Apply(s, op).0, Apply(s, op).1, 1)
  {
    Go(op, Point(4, s, l));
    if op.sequence < s.lease.lastSequence {
      Rejects(op, Point(28, s, l), StaleSequence);
    } else {
      SubmitFrom5(op, s, l);
    }
  }

  lemma SubmitFrom5(op: Op, s: Domain, l: Local)
    requires op.SetState? && Owns(s.lease, op.client) && l.status.lease == s.lease
    ensures var stored := s.(lease := s.lease.(lastSequence := op.sequence), state := op.state);
            Finish(op, Point(5, s, l)) == Outcome(Accepted(stored), Plain(Ok), 1)
  {
    AcceptsSequence(op, s, l);
    SubmitFrom9(op, s.(lease := s.lease.(lastSequence := op.sequence)), l);
  }

  lemma SubmitFrom3(op: Op, s: Domain, l: Local)
    requires op.SetState? && l.status.lease == s.lease
    ensures Finish(op, Point(3, s, l)) == Outcome(Apply(s, op).0, Apply(s, op).1, 1)
  {
    Go(op, Point(3, s, l));
    if Owns(s.lease, op.client) {
      SubmitFrom4(op, s, l);
    } else {
      Rejects(op, Point(24, s, l), NotOwner);
    }
  }

  lemma SetStateWhole(op: Op, s: Domain, l: Local)
    requires op.SetState?
    ensures Whole(op, s, l)
  {
    ReadsLease(op, 0, Point(0, s, l));
    SubmitFrom3(op, s, l.(status := l.status.(lease := s.lease)));
  }

  lemma AcceptsSequence(op: Op, s: Domain, l: Local)
    requires op.SetState? && Owns(s.lease, op.client) && l.status.lease == s.lease
    ensures Finish(op, Point(5, s, l)) == Finish(op, Point(9, s.(lease := s.lease.(lastSequence := op.sequence)), l))
  {
    Go2(op, Point(5, s, l));
    Go2(op, Point(7, s, l));
  }

  predicate VacatesFrom(op: Op, base: nat) {
    base + 14 < END && forall pc :: base <= pc < base + 14 ==> Text(op, pc) == VacateText(base, pc)
  }

  lemma ClearsLease(op: Op, base: nat, p: Point)
    requires VacatesFrom(op, base) && p.pc == base
    ensures Finish(op, p) == Finish(op, Point(base + 3, p.shared.(lease := FREE), p.local))
  {
    var one := p.shared.(lease := p.shared.lease.(hasOwner := false));
    var two := one.(lease := one.lease.(owner := 0));
    ClearsField(op, base, p, 0);
    ClearsField(op, base, Point(base + 1, one, p.local), 1);
    ClearsField(op, base, Point(base + 2, two, p.local), 2);
  }

  lemma ClearsField(op: Op, base: nat, p: Point, i: nat)
    requires VacatesFrom(op, base) && i < 3 && p.pc == base + i
    ensures Finish(op, p) ==
            Finish(op, Point(base + i + 1, p.shared.(lease := CopyLease(p.shared.lease, FREE, i)), p.local))
  {
    assert Text(op, base + i) == WriteLease(i, FREE);
    Go(op, p);
  }

  lemma Vacates(op: Op, base: nat, p: Point)
    requires VacatesFrom(op, base) && p.pc == base
    ensures Finish(op, p) == Finish(op, Point(base + 14, Vacated(p.shared), p.local))
  {
    ClearsLease(op, base, p);
    forall pc | base + 3 <= pc < base + 3 + STATE_FIELDS ensures Text(op, pc) == WriteState(pc - (base + 3), NEUTRAL) {
      assert Text(op, pc) == VacateText(base, pc);
    }
    WritesState(op, base + 3, NEUTRAL, Point(base + 3, p.shared.(lease := FREE), p.local));
  }

  lemma RevokeWhole(reason: Reason, client: U32, s: Domain, l: Local)
    ensures Whole(Op.Revoke(reason, client), s, l)
  {
    var op, p0 := Op.Revoke(reason, client), Point(0, s, l);
    match reason
    case UnknownReason => Leave(op, p0);
    case Shutdown =>
      Vacates(op, 0, p0);
      Leave(op, Point(14, Vacated(s), l));
    case _ =>
      Go2(op, p0);
      RevokesHeld(reason, client, s, NextPoint(op, NextPoint(op, p0)).local);
  }

  lemma VacatesAndLeaves(reason: Reason, client: U32, s: Domain, l: Local)
    requires !reason.UnknownReason? && !reason.Shutdown?
    ensures Finish(Op.Revoke(reason, client), Point(3, s, l)) == Outcome(Vacated(s), Plain(Ok), 1)
  {
    var op := Op.Revoke(reason, client);
    Vacates(op, 3, Point(3, s, l));
    Leave(op, Point(17, Vacated(s), l));
  }

  /** From the test of the owner on. */
  lemma RevokesHeld(reason: Reason, client: U32, s: Domain, l: Local)
    requires !reason.UnknownReason? && !reason.Shutdown?
    requires l.status.lease.hasOwner == s.lease.hasOwner && l.status.lease.owner == s.lease.owner
    ensures var op := Op.Revoke(reason, client);
            Finish(op, Point(2, s, l)) == Outcome(Apply(s, op).0, Apply(s, op).1, 1)
  {
    var op := Op.Revoke(reason, client);
    Go(op, Point(2, s, l));
    if Owns(s.lease, client) {
      VacatesAndLeaves(reason, client, s, l);
    } else {
      Leave(op, Point(if reason.Release? then 19 else 17, s, l));
    }
  }

  lemma ReadStateWhole(s: Domain, l: Local)
    ensures Whole(ReadState, s, l)
  {
    ReadsState(ReadState, 0, Point(0, s, l));
    Leave(ReadState, Point(11, s, l.(status := l.status.(state := s.state))));
  }

  lemma ReadStatusWhole(s: Domain, l: Local)
    ensures Whole(ReadStatus, s, l)
  {
    var op := ReadStatus;
    ReadsLease(op, 0, Point(0, s, l));
    var l1 := l.(status := l.status.(lease := s.lease));
    ReadsState(op, 3, Point(3, s, l1));
    var l2 := l1.(status := l1.status.(state := s.state));
    ReadsRumble(op, 14, Point(14, s, l2));
    var l3 := l2.(status := l2.status.(rumble := s.rumble));
    ReadsRest(s, l3);
  }

  lemma ReadsRest(s: Domain, l: Local)
    requires l.status.lease == s.lease && l.status.state == s.state && l.status.rumble == s.rumble
    ensures Finish(ReadStatus, Point(24, s, l)) == Outcome(s, Apply(s, ReadStatus).1, 1)
  {
    var op := ReadStatus;
    ReadsMetrics(op, 24, Point(24, s, l));
    var l1 := l.(status := l.status.(metrics := s.metrics));
    ReadsDaemon(s, l1);
    var l2 := l1.(status := l1.status.(daemon := s.daemon));
    ReadsHardware(s, l2);
    Leave(op, Point(40, s, l2.(status := l2.status.(hardware := s.hardware))));
  }

  lemma FieldSetterWhole(op: Op, s: Domain, l: Local)
    requires op.SetLifecycle? || op.SetApproval?
    ensures Whole(op, s, l)
  {
    var p0 := Point(0, s, l);
    Go(op, p0);
    Leave(op, NextPoint(op, p0));
  }

  lemma SetDaemonWhole(d: Daemon, s: Domain, l: Local)
    ensures Whole(SetDaemon(d), s, l)
  {
    var op, p0 := SetDaemon(d), Point(0, s, l);
    Go2(op, p0);
    Go(op, NextPoint(op, NextPoint(op, p0)));
    Leave(op, Point(3, s.(daemon := d), l));
  }

  lemma SetHardwareWhole(h: Hardware, s: Domain, l: Local)
    ensures Whole(SetHardware(h), s, l)
  {
    var op, p0 := SetHardware(h), Point(0, s, l);
    Go2(op, p0);
    Go(op, NextPoint(op, NextPoint(op, p0)));
    Leave(op, Point(3, s.(hardware := h), l));
  }

  lemma RecordRejectedWhole(s: Domain, l: Local)
    ensures Whole(RecordRejected, s, l)
  {
    Rejects(RecordRejected, Point(0, s, l), Ok);
  }

  lemma RecordRumbleWhole(payload: RumbleBytes, at: nat, s: Domain, l: Local)
    ensures Whole(Op.RecordRumble(payload, at), s, l)
  {
    var op, r := Op.RecordRumble(payload, at), Rumble(payload, at, true);
    WritesRumble(op, r, Point(0, s, l));
    Leave(op, Point(10, s.(rumble := r), l));
  }

  // Recording a tick, from its end to its beginning; `m` is what the metrics have become.

  predicate TickPoint(op: Op, s: Domain, m: Metrics, l: Local, p: Point) {
    && op.RecordTick? && p.shared == s.(metrics := m) && p.local == l
    && l.status.metrics.lastTick == m.lastTick
    && (m.lastTick.Some? ==> m.lastTick.value <= op.now)
  }

  predicate TickEnds(op: Op, p: Point, s: Domain, m: Metrics) {
    Finish(op, p) == Outcome(s.(metrics := m), Plain(Ok), 1)
  }

  lemma TickFrom17(op: Op, s: Domain, m: Metrics, l: Local, p: Point)
    requires TickPoint(op, s, m, l, p) && p.pc == 17
    ensures TickEnds(op, p, s, m.(lastTick := Some(op.now)))
  {
    Go2(op, p);
    Leave(op, NextPoint(op, NextPoint(op, p)));
  }

  function Interval(m: Metrics, now: nat): nat
    requires m.lastTick.Some? && m.lastTick.value <= now
  {
    now - m.lastTick.value
  }

  function Longest(m: Metrics, now: nat): nat
    requires m.lastTick.Some? && m.lastTick.value <= now
  {
    if Interval(m, now) > m.intervalMax then Interval(m, now) else m.intervalMax
  }

  lemma TickFrom14(op: Op, s: Domain, m: Metrics, l: Local, p: Point)
    requires TickPoint(op, s, m, l, p) && p.pc == 14 && m.lastTick.Some?
    ensures TickEnds(op, p, s, m.(intervalMax := Longest(m, op.now), lastTick := Some(op.now)))
  {
    Go2(op, p);
    var q := NextPoint(op, NextPoint(op, p));
    if Interval(m, op.now) > m.intervalMax {
      Go(op, q);
      TickFrom17(op, s, m.(intervalMax := Interval(m, op.now)), q.local, NextPoint(op, q));
    } else {
      TickFrom17(op, s, m, q.local, q);
    }
  }

  lemma TickFrom11(op: Op, s: Domain, m: Metrics, l: Local, p: Point)
    requires TickPoint(op, s, m, l, p) && p.pc == 11 && m.lastTick.Some? && m.intervals > 0
    ensures TickEnds(op, p, s, m.(intervalAverage := m.intervalTotal / m.intervals,
                                  intervalMax := Longest(m, op.now), lastTick := Some(op.now)))
  {
    Go2(op, p);
    var q := NextPoint(op, NextPoint(op, p));
    Go(op, q);
    TickFrom14(op, s, m.(intervalAverage := m.intervalTotal / m.intervals), q.local, NextPoint(op, q));
  }

  /** The metrics with the interval added to the total, and the average and the maximum that follow. */
  function WithTotal(m: Metrics, now: nat): Metrics
    requires m.lastTick.Some? && m.lastTick.value <= now && m.intervals > 0
  {
    var total := m.intervalTotal + Interval(m, now);
    m.(intervalTotal := total, intervalAverage := total / m.intervals, intervalMax := Longest(m, now),
       lastTick := Some(now))
  }

  lemma TickFrom9(op: Op, s: Domain, m: Metrics, l: Local, p: Point)
    requires TickPoint(op, s, m, l, p) && p.pc == 9 && m.lastTick.Some? && m.intervals > 0
    ensures TickEnds(op, p, s, WithTotal(m, op.now))
  {
    Go2(op, p);
    var q := NextPoint(op, NextPoint(op, p));
    TickFrom11(op, s, m.(intervalTotal := m.intervalTotal + Interval(m, op.now)), q.local, q);
  }

  /** All that is left to do once the tick and its outcome are counted. */
  function WithInterval(m: Metrics, now: nat): Metrics
    requires m.lastTick.Some? ==> m.lastTick.value <= now
  {
    if m.lastTick.None? then m.(lastTick := Some(now))
    else WithTotal(m.(intervals := m.intervals + 1), now)
  }

  lemma TickFrom6(op: Op, s: Domain, m: Metrics, l: Local, p: Point)
    requires TickPoint(op, s, m, l, p) && p.pc == 6
    ensures TickEnds(op, p, s, WithInterval(m, op.now))
  {
    Go(op, p);
    var q := NextPoint(op, p);
    if m.lastTick.None? {
      TickFrom17(op, s, m, l, q);
    } else {
      TickFrom7(op, s, m, l, q);
    }
  }

  lemma TickFrom7(op: Op, s: Domain, m: Metrics, l: Local, p: Point)
    requires TickPoint(op, s, m, l, p) && p.pc == 7 && m.lastTick.Some?
    ensures TickEnds(op, p, s, WithInterval(m, op.now))
  {
    Go2(op, p);
    var q := NextPoint(op, NextPoint(op, p));
    TickFrom9(op, s, m.(intervals := m.intervals + 1), q.local, q);
  }

  function WithOutcome(m: Metrics, sendOk: bool): Metrics {
    if sendOk then m.(sentOk := m.sentOk + 1) else m.(sentFailed := m.sentFailed + 1)
  }

  lemma TickFrom4(op: Op, s: Domain, m: Metrics, l: Local, p: Point)
    requires TickPoint(op, s, m, l, p) && p.pc == 4
    ensures TickEnds(op, p, s, WithInterval(WithOutcome(m, op.sendOk), op.now))
  {
    Go2(op, p);
    var q := NextPoint(op, NextPoint(op, p));
    TickFrom6(op, s, WithOutcome(m, op.sendOk), q.local, q);
  }

  lemma TickFrom2(op: Op, s: Domain, m: Metrics, l: Local, p: Point)
    requires TickPoint(op, s, m, l, p) && p.pc == 2
    ensures TickEnds(op, p, s, WithInterval(WithOutcome(m.(ticks := m.ticks + 1), op.sendOk), op.now))
  {
    Go2(op, p);
    var q := NextPoint(op, NextPoint(op, p));
    TickFrom4(op, s, m.(ticks := m.ticks + 1), q.local, q);
  }

  lemma RefusesTick(op: Op, s: Domain, l: Local)
    requires op.RecordTick?
    ensures Finish(op, Point(19, s, l)) == Outcome(s, Plain(InvalidArgument), 1)
  {
    Go(op, Point(19, s, l));
    Leave(op, Point(20, s, l.(answer := Plain(InvalidArgument))));
  }

  lemma RecordTickWhole(now: nat, sendOk: bool, s: Domain, l: Local)
    ensures Whole(Op.RecordTick(now, sendOk), s, l)
  {
    var op, p0 := Op.RecordTick(now, sendOk), Point(0, s, l);
    Go2(op, p0);
    var q := NextPoint(op, NextPoint(op, p0));
    if s.metrics.lastTick.Some? && now < s.metrics.lastTick.value {
      RefusesTick(op, s, q.local);
    } else {
      TickFrom2(op, s, s.metrics, q.local, q);
    }
  }

  /** The dispatch works on copies of the state and the lights and writes the lights back. */
  lemma HandleOutputWhole(op: Op, s: Domain, l: Local)
    requires op.HandleOutput?
    ensures Whole(op, s, l)
  {
    var r := Rumble(op.report.rumble, op.at, true);
    WritesRumble(op, r, Point(0, s, l));
    var s1 := s.(rumble := r);
    ReadsState(op, 10, Point(10, s1, l));
    var l1 := l.(status := l.status.(state := s.state));
    ReadsLights(op, Point(21, s1, l1));
    DispatchesAndLeaves(op, s1, l1.(lights := s.lights));
  }

  predicate SameLights(a: Dispatcher.Lights, b: Dispatcher.Lights, k: nat) {
    && (k > 0 ==> a.raw == b.raw) && (k > 1 ==> a.on == b.on) && (k > 2 ==> a.flash == b.flash)
    && (k > 3 ==> a.effectiveFlash == b.effectiveFlash) && (k > 4 ==> a.updated == b.updated)
  }

  lemma {:induction false} ReadsLights(op: Op, p: Point)
    requires op.HandleOutput? && 21 <= p.pc <= 26 && SameLights(p.local.lights, p.shared.lights, p.pc - 21)
    ensures Finish(op, p) == Finish(op, Point(26, p.shared, p.local.(lights := p.shared.lights)))
    decreases 26 - p.pc
  {
    if p.pc < 26 {
      assert Text(op, p.pc) == Read(LightPart, p.pc - 21);
      Go(op, p);
      ReadsLights(op, Statement(op, p).p);
    } else {
      assert p.local.lights == p.shared.lights;
    }
  }

  lemma {:induction false} WritesLights(op: Op, p: Point)
    requires op.HandleOutput? && 27 <= p.pc <= 32 && SameLights(p.shared.lights, p.local.lights, p.pc - 27)
    ensures Finish(op, p) == Finish(op, Point(32, p.shared.(lights := p.local.lights), p.local))
    decreases 32 - p.pc
  {
    if p.pc < 32 {
      assert Text(op, p.pc) == WriteLight(p.pc - 27);
      Go(op, p);
      WritesLights(op, Statement(op, p).p);
    } else {
      assert p.shared.lights == p.local.lights;
    }
  }

  lemma OutputFrom32(op: Op, s: Domain, l: Local)
    requires op.HandleOutput?
    ensures Finish(op, Point(32, s, l)) == Outcome(s, l.answer, 1)
  {
    Leave(op, Point(32, s, l));
  }

  lemma OutputFrom27(op: Op, s: Domain, l: Local)
    requires op.HandleOutput?
    ensures Finish(op, Point(27, s, l)) == Outcome(s.(lights := l.lights), l.answer, 1)
  {
    WritesLights(op, Point(27, s, l));
    OutputFrom32(op, s.(lights := l.lights), l);
  }

  lemma DispatchesAndLeaves(op: Op, s: Domain, l: Local)
    requires op.HandleOutput?
    ensures var after := Dispatched(op, s, l);
            Finish(op, Point(26, s, l)) == Outcome(s.(lights := after.lights), after.answer, 1)
  {
    Go(op, Point(26, s, l));
    OutputFrom27(op, s, Dispatched(op, s, l));
  }

  /** Left alone, the program of every operation computes exactly the operation's result and
      answer, whatever its variables started with, and releases the lock exactly once, on every
      path. */
  lemma ProgramsAreWhole(op: Op, s: Domain, junk: Local)
    ensures Finish(op, Point(0, s, junk)) == Outcome(Apply(s, op).0, Apply(s, op).1, 1)
  {
    match op
    case Acquire(client) => AcquireWhole(client, s, junk);
    case SetState(_, _, _) => SetStateWhole(op, s, junk);
    case Revoke(reason, client) => RevokeWhole(reason, client, s, junk);
    case ReadState => ReadStateWhole(s, junk);
    case ReadStatus => ReadStatusWhole(s, junk);
    case SetDaemon(d) => SetDaemonWhole(d, s, junk);
    case SetHardware(h) => SetHardwareWhole(h, s, junk);
    case RecordTick(now, sendOk) => RecordTickWhole(now, sendOk, s, junk);
    case RecordRejected => RecordRejectedWhole(s, junk);
    case RecordRumble(payload, at) => RecordRumbleWhole(payload, at, s, junk);
    case HandleOutput(_, _, _, _) => HandleOutputWhole(op, s, junk);
    case _ => FieldSetterWhole(op, s, junk);
  }

  /** Half way through its stores a submission has left a state that is nobody's: only the lock
      keeps others from seeing it. */
  lemma HalfWayIsMixed(op: Op, s: Domain, l: Local)
    requires op.SetState? && op.state.buttons != s.state.buttons && op.state.lx != s.state.lx
    ensures Statement(op, Point(9, s, l)).Moved?
    ensures var seen := NextPoint(op, Point(9, s, l)).shared.state; seen != s.state && seen != op.state
  {
  }

  // ---- Behind the unlock ----

  /** What follows an unlock is a return. */
  lemma UnlockThenReturn(op: Op, p: Point)
    requires p.pc < END && Statement(op, p).Released?
    ensures Statement(op, p).pc < END && Statement(op, p.(pc := Statement(op, p).pc)).Returned?
  {
  }

  /** A return reads nothing that is shared, so nothing another thread does after the unlock can
      change the answer. */
  lemma ReturnIsLocal(op: Op, p: Point, s: Domain)
    requires p.pc < END && Statement(op, p).Returned?
    ensures Statement(op, p.(shared := s)) == Statement(op, p)
  {
  }
}
