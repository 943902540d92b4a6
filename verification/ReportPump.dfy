/** The input-report pump as a state machine: one timer, one can-send handshake, the reply
    ring, the 300 ms holdoff, the urgent neutral report and the shared timer byte. Each handler
    is a function of the pump and of what the environment decides (the clock, whether the one
    send it makes succeeds, the state it is given). */
module ReportPump {
  import opened ControllerState
  import opened Options
  import opened ReplyQueue
  import InputReport
  import Scheduler

  const HOLDOFF_US := 300_000
  const HIDP_HEADER: U8 := 0xA1
  const CLOCK_LIMIT_MS := 0x1_0000_0000
  const DELAY_MAX_MS := 0xFFFF_FFFF

  datatype Result = Success | NotDue | Stopped | Pending | SchedulerError | ReplyQueueError

  datatype Kind = Periodic | QueuedReply | PendingNeutral | DirectNeutral

  /** What a message is made from: a full report of a state, or the bytes of a queued reply,
      with the value of the shared timer byte at the time. */
  datatype Content = FullState(state: State, stamp: U8) | Queued(bytes: seq<U8>, stamp: U8)

  /** One call of the interrupt sender: when, with what, and whether it succeeded. */
  datatype Send = Send(kind: Kind, at: nat, ok: bool, cid: U16, content: Content)

  datatype Config = Config(period: Scheduler.Period, options: InputReport.ReportOptions)

  /** The scheduler and the ring, with the history of sender calls since the last start and of
      replies since the last init or stop. */
  datatype Line = Line(
    nextDeadline: nat, timer: U8, queue: seq<Reply>,
    startedAt: nat, sends: seq<Send>, accepted: seq<Reply>, delivered: seq<Send>)

  /** `clock` and `fireAt` are in ms; `requested` says that a can-send event is owed. */
  datatype Pump = Pump(
    cfg: Config,
    running: bool, cid: U16,
    timerPending: bool, canSendPending: bool, neutralPending: bool, holdoffUntil: nat,
    line: Line,
    clock: nat, fireAt: nat, requested: bool)

  function Init(cfg: Config): Pump {
    Pump(cfg, false, 0, false, false, false, 0, Line(0, cfg.options.timer, [], 0, [], [], []), 0, 0, false)
  }

  /** Full reports and 0x21 replies use the shared timer byte. */
  predicate SharesTimer(c: Content) {
    c.FullState? || (|c.bytes| > 1 && c.bytes[0] == InputReport.REPLY_ID)
  }

  /** The HIDP message on the wire. */
  function Message(options: InputReport.ReportOptions, c: Content): seq<U8> {
    match c
    case FullState(state, stamp) => [HIDP_HEADER] + InputReport.FullReport(state, options.(timer := stamp))
    case Queued(bytes, stamp) =>
      var m := [HIDP_HEADER] + bytes;
      if SharesTimer(c) then m[2 := stamp] else m
  }

  function NextTimer(timer: U8): U8 {
    (timer + 1) % 0x100
  }

  predicate ReplySent(s: Send) {
    s.kind == QueuedReply && s.ok
  }

  // ---- Timer arming ----

  /** Rounds up, so that a timer set with this delay is never due before the deadline. */
  function DelayMs(nowUs: nat, deadlineUs: nat): (ms: nat)
    ensures ms <= DELAY_MAX_MS
    ensures ms < DELAY_MAX_MS ==> deadlineUs <= nowUs + ms * 1000
    ensures ms > 0 ==> nowUs + (ms - 1) * 1000 < deadlineUs
  {
    if deadlineUs <= nowUs then 0 else
    var ms := (deadlineUs - nowUs + 999) / 1000;
    if ms > DELAY_MAX_MS then DELAY_MAX_MS else ms
  }

  function Later(a: nat, b: nat): nat {
    if a > b then a else b
  }

  function Arm(p: Pump, now: nat): Pump {
    p.(timerPending := true, fireAt := now + DelayMs(now * 1000, Later(p.holdoffUntil, p.line.nextDeadline)))
  }

  // ---- One call of the sender ----

  /** What a sender call does to the scheduler, the ring and the histories. */
  function Transmit(cfg: Config, line: Line, s: Send): Line
    requires ReplySent(s) ==> line.queue != []
  {
    line.(sends := line.sends + [s],
          timer := if s.ok && SharesTimer(s.content) then NextTimer(line.timer) else line.timer,
          nextDeadline := if s.kind == Periodic then Scheduler.Advance(line.nextDeadline, cfg.period, s.at)
              else line.nextDeadline,
          queue := if ReplySent(s) then line.queue[1..] else line.queue,
          delivered := if ReplySent(s) then line.delivered + [s] else line.delivered)
  }

  /** The sender call made for a kind of message. */
  function SendOf(p: Pump, kind: Kind, now: nat, ok: bool, state: State): Send
    requires kind == QueuedReply ==> p.line.queue != []
  {
    match kind
    case Periodic => Send(kind, now * 1000, ok, p.cid, FullState(state, p.line.timer))
    case QueuedReply => Send(kind, now * 1000, ok, p.line.queue[0].cid, Queued(p.line.queue[0].bytes, p.line.timer))
    case _ => Send(kind, now * 1000, ok, p.cid, FullState(NEUTRAL, p.line.timer))
  }

  /** The pump after a sender call made at `now`. */
  function Emit(p: Pump, s: Send, now: nat): Pump
    requires ReplySent(s) ==> p.line.queue != []
  {
    var q := p.(line := Transmit(p.cfg, p.line, s));
    match s.kind
    case DirectNeutral =>
      if s.ok then q.(neutralPending := false) else q.(neutralPending := true, requested := true)
    case PendingNeutral =>
      if s.ok then Arm(q.(neutralPending := false, canSendPending := false, holdoffUntil := 0), now)
      else q.(requested := true)
    case QueuedReply =>
      if s.ok then Arm(q.(holdoffUntil := now * 1000 + HOLDOFF_US, canSendPending := false,
                          requested := q.requested || q.line.queue != []), now)
      else q
    case Periodic =>
      if s.ok then Arm(q.(canSendPending := false, holdoffUntil := 0), now)
      else q.(canSendPending := false)
  }

  function EmitResult(s: Send): Result {
    if s.ok then Success
    else match s.kind
      case DirectNeutral => Pending
      case QueuedReply => ReplyQueueError
      case _ => SchedulerError
  }

  // ---- Handlers ----

  datatype Event =
    | EvStart(now: nat, newCid: U16)
    | EvTimer(now: nat)
    | EvCanSend(now: nat, ok: bool, state: State)
    | EvEnqueue(now: nat, replyCid: U16, report: seq<U8>)
    | EvNeutralNow(now: nat, ok: bool)
    | EvStop(now: nat)

  /** What a handler decides to do. */
  datatype Decision =
    | Answer(result: Result)   // nothing but the result
    | Transmission(kind: Kind) // one sender call
    | Reschedule               // the holdoff is still on: arm the timer again
    | DropTick                 // the tick is not due: forget it
    | AskToSend                // the timer fired: ask for a can-send event
    | Accept                   // queue the reply
    | Begin
    | End

  function Decide(p: Pump, e: Event): Decision {
    match e
    case EvStart(_, _) => Begin
    case EvStop(_) => End
    case EvTimer(now) =>
      if !p.running then Answer(Stopped)
      else if now * 1000 < p.holdoffUntil then Reschedule
      else AskToSend
    case EvCanSend(now, _, _) =>
      if !p.running then Answer(Stopped)
      else if p.neutralPending then Transmission(PendingNeutral)
      else if p.line.queue != [] then Transmission(QueuedReply)
      else if !p.canSendPending then Answer(NotDue)
      else if now * 1000 < p.holdoffUntil then Reschedule
      else if now * 1000 < p.line.nextDeadline then DropTick
      else Transmission(Periodic)
    case EvEnqueue(_, _, report) =>
      if !p.running then Answer(Stopped)
      else if !SizeOk(report) || |p.line.queue| >= CAPACITY then Answer(ReplyQueueError)
      else Accept
    case EvNeutralNow(_, _) =>
      if !p.running then Answer(Stopped) else Transmission(DirectNeutral)
  }

  /** The pump as the handler finds it: time has passed, and a can-send event pays off the
      outstanding request. */
  function Entered(p: Pump, e: Event): Pump {
    if e.EvCanSend? then p.(clock := e.now, requested := false) else p.(clock := e.now)
  }

  function EventSend(p: Pump, e: Event): Send
    requires Decide(p, e).Transmission?
  {
    match e
    case EvCanSend(now, ok, state) => SendOf(p, Decide(p, e).kind, now, ok, state)
    case EvNeutralNow(now, ok) => SendOf(p, DirectNeutral, now, ok, NEUTRAL)
  }

  function Restarted(p: Pump, now: nat, newCid: U16): Pump {
    p.(running := true, cid := newCid, timerPending := false, canSendPending := false, neutralPending := false,
       holdoffUntil := 0, clock := now,
       line := p.line.(nextDeadline := now * 1000 + p.cfg.period, timer := p.cfg.options.timer,
                       startedAt := now * 1000, sends := []))
  }

  function Step(p: Pump, e: Event): Pump {
    var q := Entered(p, e);
    match Decide(p, e)
    case Answer(_) => q
    case Transmission(kind) => Emit(q, EventSend(p, e), e.now)
    case Reschedule => Arm(if e.EvCanSend? then q.(canSendPending := false) else q, e.now)
    case DropTick => q.(canSendPending := false)
    case AskToSend => q.(timerPending := false, canSendPending := true, requested := true)
    case Accept =>
      var reply := Reply(e.replyCid, e.report);
      q.(line := q.line.(queue := q.line.queue + [reply], accepted := q.line.accepted + [reply]), requested := true)
    case Begin => Arm(Restarted(q, e.now, e.newCid), e.now)
    case End =>
      q.(running := false, timerPending := false, canSendPending := false, neutralPending := false, holdoffUntil := 0,
         line := q.line.(queue := [], accepted := [], delivered := []))
  }

  function Returned(p: Pump, e: Event): Result {
    match Decide(p, e)
    case Answer(result) => result
    case Transmission(kind) => EmitResult(EventSend(p, e))
    case DropTick => NotDue
    case _ => Success
  }

  /** What the tick observer is told: every periodic attempt, with its outcome. */
  datatype Notice = Notice(at: nat, sendOk: bool)

  function Noticed(p: Pump, e: Event): Option<Notice> {
    if e.EvCanSend? && Decide(p, e) == Transmission(Periodic) then Some(Notice(e.now * 1000, e.ok)) else None
  }

  // ---- Runs ----

  /** What the environment promises: a monotone clock below its 32-bit wrap, and a timer that
      fires only while armed and never early. Can-send events may come at any time. */
  predicate Enabled(p: Pump, e: Event) {
    && p.clock <= e.now < CLOCK_LIMIT_MS
    && (e.EvTimer? ==> p.timerPending && p.fireAt <= e.now)
  }

  function Run(p: Pump, es: seq<Event>): Pump {
    if es == [] then p else Step(Run(p, es[..|es| - 1]), es[|es| - 1])
  }

  predicate Legal(p: Pump, es: seq<Event>) {
    es == [] || (Legal(p, es[..|es| - 1]) && Enabled(Run(p, es[..|es| - 1]), es[|es| - 1]))
  }

  // ---- What the history says ----

  /** Times of the periodic attempts. */
  function Ticks(h: seq<Send>): seq<nat> {
    if h == [] then [] else
    var ticks := Ticks(h[..|h| - 1]);
    if h[|h| - 1].kind == Periodic then ticks + [h[|h| - 1].at] else ticks
  }

  /** How many messages with the shared timer byte went out. */
  function StampsUsed(h: seq<Send>): nat {
    if h == [] then 0 else
    StampsUsed(h[..|h| - 1]) + if h[|h| - 1].ok && SharesTimer(h[|h| - 1].content) then 1 else 0
  }

  /** The last send that matters for arming was a failed periodic one. */
  predicate Stalled(h: seq<Send>) {
    h != [] &&
    var last := h[|h| - 1];
    if last.kind == Periodic then !last.ok
    else if last.ok && last.kind != DirectNeutral then false
    else Stalled(h[..|h| - 1])
  }

  /** A direct neutral failed and nothing has gone out since. */
  predicate NeutralOwed(h: seq<Send>) {
    h != [] &&
    var last := h[|h| - 1];
    !last.ok && (last.kind == DirectNeutral || NeutralOwed(h[..|h| - 1]))
  }

  predicate NeutralKind(k: Kind) {
    k == PendingNeutral || k == DirectNeutral
  }

  /** A pending neutral was delivered strictly between i and j. */
  predicate NeutralDelivered(h: seq<Send>, i: nat, j: nat)
    requires j <= |h|
  {
    exists k :: i < k < j && h[k].kind == PendingNeutral && h[k].ok
  }

  /** No periodic attempt within 300 ms of a sent reply, unless a pending neutral came between. */
  predicate ReportsHeldOff(h: seq<Send>) {
    forall i, j :: 0 <= i < j < |h| && ReplySent(h[i]) && h[j].kind == Periodic && !NeutralDelivered(h, i, j) ==>
      h[i].at + HOLDOFF_US <= h[j].at
  }

  lemma HistorySnoc(h: seq<Send>, s: Send)
    ensures Ticks(h + [s]) == if s.kind == Periodic then Ticks(h) + [s.at] else Ticks(h)
    ensures StampsUsed(h + [s]) == StampsUsed(h) + if s.ok && SharesTimer(s.content) then 1 else 0
    ensures Stalled(h + [s]) == if s.kind == Periodic then !s.ok
                                else !(s.ok && s.kind != DirectNeutral) && Stalled(h)
    ensures NeutralOwed(h + [s]) == (!s.ok && (s.kind == DirectNeutral || NeutralOwed(h)))
  {
    assert (h + [s])[..|h|] == h;
  }

  // ---- Invariants ----

  /** Flags, deadlines and the armed timer. */
  predicate Arming(p: Pump) {
    && !(p.timerPending && p.canSendPending)
    && (!p.running ==> !p.timerPending && !p.canSendPending && !p.neutralPending && p.line.queue == [])
    && p.holdoffUntil <= p.clock * 1000 + HOLDOFF_US
    && (p.running ==> p.line.nextDeadline <= p.clock * 1000 + p.cfg.period)
    && (p.timerPending ==> p.line.nextDeadline <= p.fireAt * 1000 && p.holdoffUntil <= p.fireAt * 1000)
    && (p.canSendPending ==> p.line.nextDeadline <= p.clock * 1000 && p.holdoffUntil <= p.clock * 1000)
    && p.clock < CLOCK_LIMIT_MS
    && |p.line.queue| <= CAPACITY
  }

  predicate StallKnown(p: Pump) {
    p.running ==> ((p.timerPending || p.canSendPending) <==> !Stalled(p.line.sends))
  }

  predicate OnSchedule(cfg: Config, line: Line) {
    && line.nextDeadline == Scheduler.DeadlineAfter(line.startedAt, cfg.period, Ticks(line.sends))
    && Scheduler.AllDue(line.startedAt, cfg.period, Ticks(line.sends))
  }

  /** The n-th value of the shared timer byte after a start, counting from 0. */
  function StampValue(initial: U8, n: nat): U8 {
    (initial + n) % 0x100
  }

  /** Sender call k carries the timer value that follows the stamped messages sent before it. */
  predicate StampRight(initial: U8, h: seq<Send>, k: nat)
    requires k < |h|
  {
    h[k].content.stamp == StampValue(initial, StampsUsed(h[..k]))
  }

  predicate StampsInOrder(cfg: Config, line: Line) {
    && line.timer == StampValue(cfg.options.timer, StampsUsed(line.sends))
    && forall k :: 0 <= k < |line.sends| ==> StampRight(cfg.options.timer, line.sends, k)
  }

  predicate NeutralFirst(h: seq<Send>) {
    forall k :: 0 <= k < |h| && h[k].ok && NeutralOwed(h[..k]) ==> NeutralKind(h[k].kind)
  }

  /** What is labelled neutral is a report of the neutral state. */
  predicate NeutralsAreNeutral(h: seq<Send>) {
    forall k :: 0 <= k < |h| && NeutralKind(h[k].kind) ==> h[k].content == FullState(NEUTRAL, h[k].content.stamp)
  }

  predicate NeutralKnown(p: Pump) {
    p.running ==> p.neutralPending == NeutralOwed(p.line.sends)
  }

  predicate HoldoffCovers(h: seq<Send>, horizon: nat) {
    forall i :: 0 <= i < |h| && ReplySent(h[i]) && !NeutralDelivered(h, i, |h|) ==> h[i].at + HOLDOFF_US <= horizon
  }

  predicate Carries(s: Send, r: Reply) {
    ReplySent(s) && s.cid == r.cid && s.content.Queued? && s.content.bytes == r.bytes
  }

  predicate RepliesKept(line: Line) {
    && |line.accepted| == |line.delivered| + |line.queue|
    && line.accepted[|line.delivered|..] == line.queue
    && forall k :: 0 <= k < |line.delivered| ==> Carries(line.delivered[k], line.accepted[k])
  }

  predicate LineOk(p: Pump) {
    && (p.running ==> OnSchedule(p.cfg, p.line) && StampsInOrder(p.cfg, p.line))
    && NeutralFirst(p.line.sends) && NeutralsAreNeutral(p.line.sends) && ReportsHeldOff(p.line.sends)
    && (p.running ==> HoldoffCovers(p.line.sends, Later(p.holdoffUntil, p.clock * 1000)))
    && RepliesKept(p.line)
  }

  predicate Inv(p: Pump) {
    Arming(p) && StallKnown(p) && NeutralKnown(p) && LineOk(p)
  }

  // ---- Preservation: a sender call ----

  lemma ArmCovers(p: Pump, now: nat)
    requires now < CLOCK_LIMIT_MS && p.line.nextDeadline <= now * 1000 + p.cfg.period &&
        p.holdoffUntil <= now * 1000 + HOLDOFF_US
    ensures p.line.nextDeadline <= Arm(p, now).fireAt * 1000 && p.holdoffUntil <= Arm(p, now).fireAt * 1000
  {
  }

  lemma EmitFlags(p: Pump, s: Send, now: nat)
    requires Arming(p) && StallKnown(p) && NeutralKnown(p) && p.running && p.clock == now
    requires ReplySent(s) ==> p.line.queue != []
    requires s.at == now * 1000
    requires s.kind == Periodic ==> p.canSendPending && !p.neutralPending
    requires s.kind == QueuedReply ==> !p.neutralPending
    ensures Arming(Emit(p, s, now)) && StallKnown(Emit(p, s, now)) && NeutralKnown(Emit(p, s, now))
  {
    HistorySnoc(p.line.sends, s);
    ArmCovers(Emit(p, s, now), now);
  }

  lemma TransmitSchedule(cfg: Config, line: Line, s: Send)
    requires ReplySent(s) ==> line.queue != []
    requires OnSchedule(cfg, line) && (s.kind == Periodic ==> line.nextDeadline <= s.at)
    ensures OnSchedule(cfg, Transmit(cfg, line, s))
  {
    HistorySnoc(line.sends, s);
    if s.kind == Periodic {
      Scheduler.AllDueSnoc(line.startedAt, cfg.period, Ticks(line.sends), s.at);
    }
  }

  lemma StampRightSnoc(initial: U8, h: seq<Send>, s: Send, k: nat)
    requires k <= |h|
    requires k < |h| ==> StampRight(initial, h, k)
    requires s.content.stamp == StampValue(initial, StampsUsed(h))
    ensures StampRight(initial, h + [s], k)
  {
    var g := h + [s];
    assert g[..k] == h[..k];
    assert k == |h| ==> h[..k] == h;
  }

  lemma TransmitStamps(cfg: Config, line: Line, s: Send)
    requires ReplySent(s) ==> line.queue != []
    requires StampsInOrder(cfg, line) && s.content.stamp == line.timer
    ensures StampsInOrder(cfg, Transmit(cfg, line, s))
  {
    HistorySnoc(line.sends, s);
    var h := line.sends + [s];
    forall k | 0 <= k < |h| ensures StampRight(cfg.options.timer, h, k) {
      StampRightSnoc(cfg.options.timer, line.sends, s, k);
    }
  }

  lemma TransmitReplies(cfg: Config, line: Line, s: Send)
    requires ReplySent(s) ==> line.queue != [] && Carries(s, line.queue[0])
    requires RepliesKept(line)
    ensures RepliesKept(Transmit(cfg, line, s))
  {
    if ReplySent(s) {
      assert line.accepted[|line.delivered|] == line.accepted[|line.delivered|..][0];
    }
  }

  lemma NeutralFirstSnoc(h: seq<Send>, s: Send)
    requires NeutralFirst(h) && (s.ok && NeutralOwed(h) ==> NeutralKind(s.kind))
    ensures NeutralFirst(h + [s])
  {
    var g := h + [s];
    forall k | 0 <= k < |g| && g[k].ok && NeutralOwed(g[..k]) ensures NeutralKind(g[k].kind) {
      assert g[..k] == h[..k];
      if k == |h| {
        assert h[..k] == h;
      }
    }
  }

  lemma NeutralsSnoc(h: seq<Send>, s: Send)
    requires NeutralsAreNeutral(h) && (NeutralKind(s.kind) ==> s.content == FullState(NEUTRAL, s.content.stamp))
    ensures NeutralsAreNeutral(h + [s])
  {
  }

  lemma NeutralDeliveredSnoc(h: seq<Send>, s: Send, i: nat, j: nat)
    requires i < j <= |h|
    ensures NeutralDelivered(h, i, j) ==> NeutralDelivered(h + [s], i, j)
    ensures NeutralDelivered(h + [s], i, j) ==> NeutralDelivered(h, i, j)
    ensures NeutralDelivered(h, i, j) || (s.kind == PendingNeutral && s.ok) ==> NeutralDelivered(h + [s], i, |h| + 1)
  {
    var g := h + [s];
    if NeutralDelivered(h, i, j) {
      var k :| i < k < j && h[k].kind == PendingNeutral && h[k].ok;
      assert g[k] == h[k];
    }
    if NeutralDelivered(g, i, j) {
      var k :| i < k < j && g[k].kind == PendingNeutral && g[k].ok;
      assert g[k] == h[k];
    }
    if s.kind == PendingNeutral && s.ok {
      assert g[|h|] == s;
    }
  }

  lemma HeldOffSnoc(h: seq<Send>, s: Send, horizon: nat)
    requires ReportsHeldOff(h) && HoldoffCovers(h, horizon)
    requires s.kind == Periodic ==> horizon <= s.at
    ensures ReportsHeldOff(h + [s])
  {
    var g := h + [s];
    forall i, j | 0 <= i < j < |g| && ReplySent(g[i]) && g[j].kind == Periodic && !NeutralDelivered(g, i, j)
      ensures g[i].at + HOLDOFF_US <= g[j].at
    {
      NeutralDeliveredSnoc(h, s, i, j);
      assert g[i] == h[i];
      if j < |h| {
        assert g[j] == h[j];
      }
    }
  }

  lemma HoldoffCoversSnoc(h: seq<Send>, s: Send, horizon: nat, horizon': nat)
    requires HoldoffCovers(h, horizon)
    requires (s.kind == PendingNeutral && s.ok) || horizon <= horizon'
    requires ReplySent(s) ==> s.at + HOLDOFF_US <= horizon'
    ensures HoldoffCovers(h + [s], horizon')
  {
    var g := h + [s];
    forall i | 0 <= i < |g| && ReplySent(g[i]) && !NeutralDelivered(g, i, |g|)
      ensures g[i].at + HOLDOFF_US <= horizon'
    {
      if i < |h| {
        NeutralDeliveredSnoc(h, s, i, |h|);
        assert g[i] == h[i];
      }
    }
  }

  lemma EmitLine(p: Pump, s: Send, now: nat)
    requires LineOk(p) && NeutralKnown(p) && p.running && p.clock == now && s.at == now * 1000
    requires p.holdoffUntil <= now * 1000 + HOLDOFF_US
    requires ReplySent(s) ==> p.line.queue != [] && Carries(s, p.line.queue[0])
    requires s.content.stamp == p.line.timer
    requires s.kind == Periodic ==> p.line.nextDeadline <= s.at && p.holdoffUntil <= s.at && !p.neutralPending
    requires s.kind == QueuedReply ==> !p.neutralPending
    requires NeutralKind(s.kind) ==> s.content == FullState(NEUTRAL, s.content.stamp)
    ensures LineOk(Emit(p, s, now))
  {
    var q := Emit(p, s, now);
    TransmitSchedule(p.cfg, p.line, s);
    TransmitStamps(p.cfg, p.line, s);
    TransmitReplies(p.cfg, p.line, s);
    NeutralFirstSnoc(p.line.sends, s);
    NeutralsSnoc(p.line.sends, s);
    HeldOffSnoc(p.line.sends, s, Later(p.holdoffUntil, now * 1000));
    HoldoffCoversSnoc(p.line.sends, s, Later(p.holdoffUntil, now * 1000), Later(q.holdoffUntil, now * 1000));
  }

  // ---- Preservation: a whole event ----

  /** Letting time pass keeps the invariant. */
  lemma InvEntered(p: Pump, e: Event)
    requires Inv(p) && p.clock <= e.now < CLOCK_LIMIT_MS
    ensures Inv(Entered(p, e))
  {
  }

  lemma InvBegin(p: Pump, e: Event)
    requires Inv(p) && p.clock == e.now && e.EvStart?
    ensures Inv(Step(p, e))
  {
    ArmCovers(Step(p, e), e.now);
  }

  lemma InvEnd(p: Pump, e: Event)
    requires Inv(p) && p.clock == e.now && e.EvStop?
    ensures Inv(Step(p, e))
  {
  }

  lemma InvAccept(p: Pump, e: Event)
    requires Inv(p) && p.clock == e.now && Decide(p, e).Accept?
    ensures Inv(Step(p, e))
  {
    var line, next := p.line, Step(p, e).line;
    assert next.accepted[|line.delivered|..] == next.queue;
  }

  /** The decisions that touch only the flags; rescheduling and dropping never happen. */
  lemma InvArming(p: Pump, e: Event)
    requires Inv(p) && Inv(Entered(p, e)) && Enabled(p, e)
    requires Decide(p, e).Answer? || Decide(p, e).AskToSend? || Decide(p, e).Reschedule? || Decide(p, e).DropTick?
    ensures !Decide(p, e).Reschedule? && !Decide(p, e).DropTick?
    ensures Inv(Step(p, e))
  {
  }

  lemma InvQuiet(p: Pump, e: Event)
    requires Inv(p) && Enabled(p, e) && !Decide(p, e).Transmission?
    ensures Inv(Step(p, e))
  {
    InvEntered(p, e);
    match Decide(p, e)
    case Begin => InvBegin(Entered(p, e), e);
    case Accept => InvAccept(Entered(p, e), e);
    case End => InvEnd(Entered(p, e), e);
    case _ => InvArming(p, e);
  }

  lemma InvStep(p: Pump, e: Event)
    requires Inv(p) && Enabled(p, e)
    ensures Inv(Step(p, e))
  {
    if Decide(p, e).Transmission? {
      InvEntered(p, e);
      EmitFlags(Entered(p, e), EventSend(p, e), e.now);
      EmitLine(Entered(p, e), EventSend(p, e), e.now);
    } else {
      InvQuiet(p, e);
    }
  }

  /** Every reachable pump satisfies the invariant. */
  lemma {:induction false} InvRun(cfg: Config, es: seq<Event>)
    requires Legal(Init(cfg), es)
    ensures Inv(Run(Init(cfg), es))
    decreases |es|
  {
    if es != [] {
      InvRun(cfg, es[..|es| - 1]);
      InvStep(Run(Init(cfg), es[..|es| - 1]), es[|es| - 1]);
    }
  }
}
