/** The domain and the report pump together: what a periodic report may show. Domain
    operations come from any thread; the pump's state provider reads the domain under its
    lock, and further operations may land between that read and the send. */
module SafetyChain {
  import opened ControllerState
  import opened Options
  import DomainModel
  import InputReport
  import ReportPump

  type Op = DomainModel.Op

  datatype Event =
    | Client(op: Op)
    | Pump(e: ReportPump.Event, during: seq<Op>)

  /** How many operations the domain had seen when the state for a sender call was read, and
      when the call was made. */
  datatype Mark = Mark(read: nat, sent: nat)

  /** `marks` follows the pump's sender calls since the last start, `attempts` its periodic attempts
      from the beginning. */
  datatype System = System(pump: ReportPump.Pump, ops: seq<Op>, marks: seq<Mark>, attempts: seq<DomainModel.Tick>)

  function Init(cfg: ReportPump.Config): System {
    System(ReportPump.Init(cfg), [], [], [])
  }

  function Provided(image: seq<U8>, ops: seq<Op>): State {
    DomainModel.Replay(DomainModel.Fresh(image), ops).state
  }

  /** The event with the state the provider reads in place of an arbitrary one. */
  function Fed(image: seq<U8>, s: System, e: ReportPump.Event): ReportPump.Event {
    if e.EvCanSend? then e.(state := Provided(image, s.ops)) else e
  }

  /** The observer records every periodic attempt in the domain, after the send. */
  function Observed(p: ReportPump.Pump, e: ReportPump.Event): seq<DomainModel.Tick> {
    var notice := ReportPump.Noticed(p, e);
    if notice.Some? then [DomainModel.Tick(notice.value.at, notice.value.sendOk)] else []
  }

  function Records(ticks: seq<DomainModel.Tick>): seq<Op> {
    seq(|ticks|, i requires 0 <= i < |ticks| => DomainModel.Op.RecordTick(ticks[i].at, ticks[i].sendOk))
  }

  function Step(image: seq<U8>, s: System, e: Event): System {
    match e
    case Client(op) => s.(ops := s.ops + [op])
    case Pump(pe, during) =>
      var fed := Fed(image, s, pe);
      var ticks := Observed(s.pump, fed);
      System(ReportPump.Step(s.pump, fed), s.ops + (during + Records(ticks)),
             if pe.EvStart? then []
             else if ReportPump.Decide(s.pump, fed).Transmission? then s.marks + [Mark(|s.ops|, |s.ops| + |during|)]
             else s.marks,
             s.attempts + ticks)
  }

  function Run(image: seq<U8>, cfg: ReportPump.Config, es: seq<Event>): System {
    if es == [] then Init(cfg) else Step(image, Run(image, cfg, es[..|es| - 1]), es[|es| - 1])
  }

  // ---- Every sender call is accounted for ----

  predicate Backed(image: seq<U8>, ops: seq<Op>, send: ReportPump.Send, mark: Mark) {
    && mark.read <= mark.sent <= |ops|
    && (send.kind == ReportPump.Periodic ==>
          send.content == ReportPump.FullState(Provided(image, ops[..mark.read]), send.content.stamp))
    && (ReportPump.NeutralKind(send.kind) ==> send.content == ReportPump.FullState(NEUTRAL, send.content.stamp))
  }

  predicate AllBacked(image: seq<U8>, s: System) {
    && |s.marks| == |s.pump.line.sends|
    && forall k :: 0 <= k < |s.marks| ==> Backed(image, s.ops, s.pump.line.sends[k], s.marks[k])
  }

  lemma BackedLater(image: seq<U8>, ops: seq<Op>, more: seq<Op>, send: ReportPump.Send, mark: Mark)
    requires Backed(image, ops, send, mark)
    ensures Backed(image, ops + more, send, mark)
  {
    assert (ops + more)[..mark.read] == ops[..mark.read];
  }

  /** What an event does to the list of sender calls. */
  lemma SendsAfter(p: ReportPump.Pump, e: ReportPump.Event)
    ensures ReportPump.Step(p, e).line.sends ==
      if e.EvStart? then []
      else if ReportPump.Decide(p, e).Transmission? then p.line.sends + [ReportPump.EventSend(p, e)]
      else p.line.sends
  {
    if ReportPump.Decide(p, e).Transmission? {
      EmitSends(ReportPump.Entered(p, e), ReportPump.EventSend(p, e), e.now);
    }
  }

  lemma EmitSends(p: ReportPump.Pump, s: ReportPump.Send, now: nat)
    requires ReportPump.ReplySent(s) ==> p.line.queue != []
    ensures ReportPump.Emit(p, s, now).line.sends == p.line.sends + [s]
  {
  }

  lemma FreshSendBacked(image: seq<U8>, s: System, e: ReportPump.Event, more: seq<Op>, n: nat)
    requires ReportPump.Decide(s.pump, Fed(image, s, e)).Transmission? && n <= |more|
    ensures Backed(image, s.ops + more, ReportPump.EventSend(s.pump, Fed(image, s, e)), Mark(|s.ops|, |s.ops| + n))
  {
    assert (s.ops + more)[..|s.ops|] == s.ops;
  }

  lemma BackedStep(image: seq<U8>, s: System, e: Event)
    requires AllBacked(image, s)
    ensures AllBacked(image, Step(image, s, e))
  {
    var t := Step(image, s, e);
    var more := if e.Pump? then e.during + Records(Observed(s.pump, Fed(image, s, e.e))) else [e.op];
    if e.Pump? {
      SendsAfter(s.pump, Fed(image, s, e.e));
    }
    forall k | 0 <= k < |t.marks| ensures Backed(image, t.ops, t.pump.line.sends[k], t.marks[k]) {
      if k < |s.marks| {
        BackedLater(image, s.ops, more, s.pump.line.sends[k], s.marks[k]);
      } else {
        FreshSendBacked(image, s, e.e, more, |e.during|);
      }
    }
  }

  lemma {:induction false} BackedRun(image: seq<U8>, cfg: ReportPump.Config, es: seq<Event>)
    ensures AllBacked(image, Run(image, cfg, es))
    decreases |es|
  {
    if es != [] {
      BackedRun(image, cfg, es[..|es| - 1]);
      BackedStep(image, Run(image, cfg, es[..|es| - 1]), es[|es| - 1]);
    }
  }

  // ---- What a report shows ----

  /** Everything in a message behind the HIDP header, the report id and the timer byte. */
  function Body(options: InputReport.ReportOptions, c: ReportPump.Content): (b: seq<U8>)
    requires c.FullState?
    ensures |b| == InputReport.FULL_SIZE - 2
  {
    ReportPump.Message(options, c)[3..]
  }

  function NeutralBody(options: InputReport.ReportOptions): seq<U8> {
    Body(options, ReportPump.FullState(NEUTRAL, 0))
  }

  lemma BodyIgnoresStamp(options: InputReport.ReportOptions, s: State, a: U8, b: U8)
    ensures Body(options, ReportPump.FullState(s, a)) == Body(options, ReportPump.FullState(s, b))
  {
    BodyParts(options, s, a);
    BodyParts(options, s, b);
  }

  /** The body is the prefix behind the timer byte and the IMU frames. */
  lemma BodyParts(options: InputReport.ReportOptions, s: State, stamp: U8)
    ensures Body(options, ReportPump.FullState(s, stamp)) ==
            InputReport.Prefix(InputReport.FULL_ID, s, options)[2..] + InputReport.ImuFrames(s, 3)
  {
    var stamped := options.(timer := stamp);
    var p, q := InputReport.Prefix(InputReport.FULL_ID, s, stamped),
        InputReport.Prefix(InputReport.FULL_ID, s, options);
    PrefixTail(s, stamped);
    PrefixTail(s, options);
    BehindStamp(p, InputReport.ImuFrames(s, 3));
  }

  lemma PrefixTail(s: State, o: InputReport.ReportOptions)
    ensures InputReport.Prefix(InputReport.FULL_ID, s, o)[2..] ==
            [o.battery] + (InputReport.ButtonBytes(s.buttons) + InputReport.StickBytes(s.lx, s.ly) +
                           InputReport.StickBytes(s.rx, s.ry) + [o.vibrator])
  {
  }

  lemma BehindStamp(p: seq<U8>, tail: seq<U8>)
    requires |p| >= 2
    ensures ([ReportPump.HIDP_HEADER] + (p + tail))[3..] == p[2..] + tail
  {
  }

  /** In every run, a periodic report whose body is not the neutral one was made while some
      client held the lease, and shows that client's last accepted submission: byte for byte,
      and as a reader of the report decodes it. */
  lemma ReportsShowTheOwner(image: seq<U8>, cfg: ReportPump.Config, es: seq<Event>, k: nat, frame: nat)
    requires k < |Run(image, cfg, es).pump.line.sends| && frame < 3
    requires Run(image, cfg, es).pump.line.sends[k].kind == ReportPump.Periodic
    ensures var s := Run(image, cfg, es);
            var content := s.pump.line.sends[k].content;
            && |s.marks| == |s.pump.line.sends| && s.marks[k].read <= s.marks[k].sent <= |s.ops| && content.FullState?
            && (Body(cfg.options, content) != NeutralBody(cfg.options) ==>
                  var history := s.ops[..s.marks[k].read];
                  var last := DomainModel.LastAccepted(DomainModel.Fresh(image), history);
                  && last.Some?
                  && DomainModel.OwnerOf(history) == Some(last.value.client)
                  && Body(cfg.options, content) == Body(cfg.options, ReportPump.FullState(last.value.state, 0))
                  && InputReport.ReadReport(ReportPump.Message(cfg.options, content)[1..], frame)
                     == Some(InputReport.Transmitted(last.value.state)))
  {
    BackedRun(image, cfg, es);
    var s := Run(image, cfg, es);
    var content, history := s.pump.line.sends[k].content, s.ops[..s.marks[k].read];
    assert Backed(image, s.ops, s.pump.line.sends[k], s.marks[k]);
    DomainModel.StateIsFoldOfHistory(image, history);
    BodyIgnoresStamp(cfg.options, content.state, content.stamp, 0);
    InputReport.ReadFullReport(content.state, cfg.options.(timer := content.stamp), frame);
    assert ReportPump.Message(cfg.options, content)[1..] ==
           InputReport.FullReport(content.state, cfg.options.(timer := content.stamp));
  }

  /** Once the lease is gone, every later periodic report is neutral until someone acquires it
      and has a submission accepted. */
  lemma NeutralOnceVacated(image: seq<U8>, cfg: ReportPump.Config, es: seq<Event>, k: nat)
    requires k < |Run(image, cfg, es).pump.line.sends|
    requires Run(image, cfg, es).pump.line.sends[k].kind == ReportPump.Periodic
    ensures var s := Run(image, cfg, es);
            && |s.marks| == |s.pump.line.sends| && s.marks[k].read <= |s.ops|
            && (DomainModel.LastAccepted(DomainModel.Fresh(image), s.ops[..s.marks[k].read]).None?
                ==> s.pump.line.sends[k].content == ReportPump.FullState(NEUTRAL, s.pump.line.sends[k].content.stamp))
  {
    BackedRun(image, cfg, es);
    var s := Run(image, cfg, es);
    assert Backed(image, s.ops, s.pump.line.sends[k], s.marks[k]);
    DomainModel.StateIsFoldOfHistory(image, s.ops[..s.marks[k].read]);
  }

  // ---- Every periodic attempt is counted ----

  /** The environment's promises to the pump hold, and nobody but the observer records ticks. */
  predicate Fair(image: seq<U8>, s: System, e: Event) {
    match e
    case Client(op) => !op.RecordTick?
    case Pump(pe, during) =>
      ReportPump.Enabled(s.pump, Fed(image, s, pe)) && forall i :: 0 <= i < |during| ==> !during[i].RecordTick?
  }

  predicate AllFair(image: seq<U8>, cfg: ReportPump.Config, es: seq<Event>) {
    es == [] ||
    (AllFair(image, cfg, es[..|es| - 1]) && Fair(image, Run(image, cfg, es[..|es| - 1]), es[|es| - 1]))
  }

  lemma {:induction false} OthersRecordNothing(image: seq<U8>, ops: seq<Op>, more: seq<Op>)
    requires forall i :: 0 <= i < |more| ==> !more[i].RecordTick?
    ensures DomainModel.Recorded(DomainModel.Fresh(image), ops + more) ==
            DomainModel.Recorded(DomainModel.Fresh(image), ops)
    decreases |more|
  {
    if more == [] {
      assert ops + more == ops;
    } else {
      var n := |more| - 1;
      OthersRecordNothing(image, ops, more[..n]);
      assert (ops + more)[..|ops + more| - 1] == ops + more[..n];
    }
  }

  /** A tick no earlier than the last recorded one is recorded. */
  lemma TickIsRecorded(image: seq<U8>, ops: seq<Op>, t: DomainModel.Tick)
    requires var ticks := DomainModel.Recorded(DomainModel.Fresh(image), ops); ticks != [] ==>
        ticks[|ticks| - 1].at <= t.at
    ensures DomainModel.Recorded(DomainModel.Fresh(image), ops + Records([t])) ==
            DomainModel.Recorded(DomainModel.Fresh(image), ops) + [t]
  {
    var op := DomainModel.Op.RecordTick(t.at, t.sendOk);
    assert Records([t]) == [op] && (ops + [op])[..|ops|] == ops;
    DomainModel.TicksInHistory(image, ops);
  }

  predicate Counted(image: seq<U8>, s: System) {
    && DomainModel.Recorded(DomainModel.Fresh(image), s.ops) == s.attempts
    && (s.attempts != [] ==> s.attempts[|s.attempts| - 1].at <= s.pump.clock * 1000)
  }

  lemma ClockAfter(p: ReportPump.Pump, e: ReportPump.Event)
    ensures ReportPump.Step(p, e).clock == e.now
  {
    if ReportPump.Decide(p, e).Transmission? {
      EmitClock(ReportPump.Entered(p, e), ReportPump.EventSend(p, e), e.now);
    }
  }

  lemma EmitClock(p: ReportPump.Pump, s: ReportPump.Send, now: nat)
    requires ReportPump.ReplySent(s) ==> p.line.queue != []
    ensures ReportPump.Emit(p, s, now).clock == p.clock
  {
  }

  lemma CountedPump(image: seq<U8>, s: System, pe: ReportPump.Event, during: seq<Op>)
    requires Counted(image, s) && Fair(image, s, Pump(pe, during))
    ensures Counted(image, Step(image, s, Pump(pe, during)))
  {
    var fed := Fed(image, s, pe);
    var ticks := Observed(s.pump, fed);
    ClockAfter(s.pump, fed);
    OthersRecordNothing(image, s.ops, during);
    if ticks == [] {
      assert during + Records(ticks) == during;
    } else {
      TickIsRecorded(image, s.ops + during, ticks[0]);
      SameOps(s.ops, during, ticks);
    }
  }

  lemma SameOps(ops: seq<Op>, during: seq<Op>, ticks: seq<DomainModel.Tick>)
    requires |ticks| == 1
    ensures ops + (during + Records(ticks)) == (ops + during) + Records([ticks[0]])
  {
    assert ticks == [ticks[0]];
  }

  lemma CountedStep(image: seq<U8>, s: System, e: Event)
    requires Counted(image, s) && Fair(image, s, e)
    ensures Counted(image, Step(image, s, e))
  {
    match e
    case Client(op) => OthersRecordNothing(image, s.ops, [op]);
    case Pump(pe, during) => CountedPump(image, s, pe, during);
  }

  lemma {:induction false} CountedRun(image: seq<U8>, cfg: ReportPump.Config, es: seq<Event>)
    requires AllFair(image, cfg, es)
    ensures Counted(image, Run(image, cfg, es))
    decreases |es|
  {
    if es != [] {
      CountedRun(image, cfg, es[..|es| - 1]);
      CountedStep(image, Run(image, cfg, es[..|es| - 1]), es[|es| - 1]);
    }
  }

  /** In every run, over all starts and stops, the domain has recorded exactly the pump's periodic
      attempts, with their times and outcomes, so its counters are theirs. */
  lemma AttemptsAreCounted(image: seq<U8>, cfg: ReportPump.Config, es: seq<Event>)
    requires AllFair(image, cfg, es)
    ensures var s := Run(image, cfg, es);
            && DomainModel.Recorded(DomainModel.Fresh(image), s.ops) == s.attempts
            && DomainModel.TicksAddUp(DomainModel.Replay(DomainModel.Fresh(image), s.ops).metrics, s.attempts)
  {
    CountedRun(image, cfg, es);
    DomainModel.TicksInHistory(image, Run(image, cfg, es).ops);
  }
}
