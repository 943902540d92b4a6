/** What every run of the report pump guarantees. */
module PumpProperties {
  import opened ControllerState
  import opened Options
  import opened ReplyQueue
  import opened ReportPump
  import InputReport
  import Scheduler

  // ---- Arming: something is always pending, except after a failed periodic report ----

  lemma {:induction false} NoFailedTickNoStall(h: seq<Send>)
    requires forall k :: 0 <= k < |h| && h[k].kind == Periodic ==> h[k].ok
    ensures !Stalled(h)
    decreases |h|
  {
    if h != [] {
      NoFailedTickNoStall(h[..|h| - 1]);
    }
  }

  /** The timer and the can-send wait are never both pending; while running one of them is,
      exactly unless the last report that matters for arming was a failed periodic one. */
  lemma OnePendingUnlessStalled(cfg: Config, es: seq<Event>)
    requires Legal(Init(cfg), es)
    ensures var p := Run(Init(cfg), es);
            && !(p.timerPending && p.canSendPending)
            && (p.timerPending || p.canSendPending <==> p.running && !Stalled(p.line.sends))
            && (p.running &&
                (forall k :: 0 <= k < |p.line.sends| && p.line.sends[k].kind == Periodic ==> p.line.sends[k].ok)
                ==> p.timerPending != p.canSendPending)
  {
    InvRun(cfg, es);
    var p := Run(Init(cfg), es);
    if forall k :: 0 <= k < |p.line.sends| && p.line.sends[k].kind == Periodic ==> p.line.sends[k].ok {
      NoFailedTickNoStall(p.line.sends);
    }
  }

  /** Whenever a tick is taken up it is due: neither holdoff reschedule happens, no tick is
      dropped as not due, and the delay handed to the timer is never cut to 32 bits. */
  lemma TicksAreDue(cfg: Config, es: seq<Event>, e: Event)
    requires Legal(Init(cfg), es) && Enabled(Run(Init(cfg), es), e)
    ensures var p := Run(Init(cfg), es);
            && !Decide(p, e).Reschedule? && !Decide(p, e).DropTick?
            && (p.running && e.EvCanSend? && p.canSendPending && !p.neutralPending && p.line.queue == []
                ==> Decide(p, e) == Transmission(Periodic))
    ensures var q := Step(Run(Init(cfg), es), e);
            q.timerPending ==> q.line.nextDeadline <= q.fireAt * 1000 && q.holdoffUntil <= q.fireAt * 1000
  {
    InvRun(cfg, es);
    var p := Run(Init(cfg), es);
    InvStep(p, e);
    if Decide(p, e).Reschedule? || Decide(p, e).DropTick? {
      InvEntered(p, e);
      InvArming(p, e);
    }
  }

  /** After a failed periodic report only a restart, a sent reply or a delivered pending
      neutral gets the pump going again. */
  lemma OnlyTheseRearm(cfg: Config, es: seq<Event>, e: Event)
    requires Legal(Init(cfg), es) && Enabled(Run(Init(cfg), es), e)
    requires var p := Run(Init(cfg), es); p.running && Stalled(p.line.sends)
    ensures var p := Run(Init(cfg), es);
            var q := Step(p, e);
            q.timerPending || q.canSendPending <==>
              e.EvStart? || (e.EvCanSend? && e.ok && (p.neutralPending || p.line.queue != []))
  {
    InvRun(cfg, es);
    RearmAt(Run(Init(cfg), es), e);
  }

  lemma RearmAt(p: Pump, e: Event)
    requires Inv(p) && Enabled(p, e) && p.running && Stalled(p.line.sends)
    ensures var q := Step(p, e);
            q.timerPending || q.canSendPending <==>
              e.EvStart? || (e.EvCanSend? && e.ok && (p.neutralPending || p.line.queue != []))
  {
  }

  // ---- Timing of the periodic reports ----

  /** The times of the periodic attempts of a running pump, sent or failed, and its start. */
  function AttemptTimes(cfg: Config, es: seq<Event>): seq<nat> {
    Ticks(Run(Init(cfg), es).line.sends)
  }

  function StartTime(cfg: Config, es: seq<Event>): nat {
    Run(Init(cfg), es).line.startedAt
  }

  lemma AttemptsAreDue(cfg: Config, es: seq<Event>)
    requires Legal(Init(cfg), es) && Run(Init(cfg), es).running
    ensures Scheduler.AllDue(StartTime(cfg, es), cfg.period, AttemptTimes(cfg, es))
    ensures Run(Init(cfg), es).line.nextDeadline ==
            Scheduler.DeadlineAfter(StartTime(cfg, es), cfg.period, AttemptTimes(cfg, es))
  {
    InvRun(cfg, es);
    ConfigKept(cfg, es);
  }

  /** The n-th attempt after a start, counting from 1, is never before start + n periods. */
  lemma AttemptsNeverEarly(cfg: Config, es: seq<Event>, n: nat)
    requires Legal(Init(cfg), es) && Run(Init(cfg), es).running && 1 <= n <= |AttemptTimes(cfg, es)|
    ensures StartTime(cfg, es) + n * cfg.period <= AttemptTimes(cfg, es)[n - 1]
  {
    AttemptsAreDue(cfg, es);
    Scheduler.NeverEarly(StartTime(cfg, es), cfg.period, AttemptTimes(cfg, es), n);
  }

  /** Any m + 1 consecutive attempts span more than m - 1 periods. */
  lemma AttemptsNeverBurst(cfg: Config, es: seq<Event>, i: nat, m: nat)
    requires Legal(Init(cfg), es) && Run(Init(cfg), es).running && 1 <= m && i + m < |AttemptTimes(cfg, es)|
    ensures AttemptTimes(cfg, es)[i + m] - AttemptTimes(cfg, es)[i] > (m - 1) * cfg.period
  {
    AttemptsAreDue(cfg, es);
    Scheduler.NoBurst(StartTime(cfg, es), cfg.period, AttemptTimes(cfg, es), i, m);
  }

  /** The deadlines of a running pump are exactly start + k periods, without drift, as long as
      every attempt is less than one period late, and no longer. */
  lemma AttemptsDriftIff(cfg: Config, es: seq<Event>)
    requires Legal(Init(cfg), es) && Run(Init(cfg), es).running
    ensures var start, ticks := StartTime(cfg, es), AttemptTimes(cfg, es);
            && ((forall k :: 0 <= k < |ticks| ==> Scheduler.Timely(start, cfg.period, ticks, k)) <==>
                (forall k :: 0 <= k <= |ticks| ==> Scheduler.OnGrid(start, cfg.period, ticks, k)))
            && ((forall k :: 0 <= k < |ticks| ==> Scheduler.Timely(start, cfg.period, ticks, k)) ==>
                Run(Init(cfg), es).line.nextDeadline == start + (|ticks| + 1) * cfg.period)
  {
    AttemptsAreDue(cfg, es);
    var start, ticks := StartTime(cfg, es), AttemptTimes(cfg, es);
    Scheduler.NoDriftIffTimely(start, cfg.period, ticks);
    if forall k :: 0 <= k < |ticks| ==> Scheduler.Timely(start, cfg.period, ticks, k) {
      assert Scheduler.OnGrid(start, cfg.period, ticks, |ticks|);
      assert ticks[..|ticks|] == ticks;
    }
  }

  lemma {:induction false} ConfigKept(cfg: Config, es: seq<Event>)
    ensures Run(Init(cfg), es).cfg == cfg
    decreases |es|
  {
    if es != [] {
      ConfigKept(cfg, es[..|es| - 1]);
      StepKeepsConfig(Run(Init(cfg), es[..|es| - 1]), es[|es| - 1]);
    }
  }

  lemma StepKeepsConfig(p: Pump, e: Event)
    ensures Step(p, e).cfg == p.cfg
  {
    if Decide(p, e).Transmission? {
      EmitKeepsConfig(Entered(p, e), EventSend(p, e), e.now);
    }
  }

  lemma EmitKeepsConfig(p: Pump, s: Send, now: nat)
    requires ReplySent(s) ==> p.line.queue != []
    ensures Emit(p, s, now).cfg == p.cfg
  {
  }

  // ---- The shared timer byte ----

  /** The messages that went out with the shared timer byte, in order. */
  function StampedSends(h: seq<Send>): (r: seq<Send>) {
    if h == [] then [] else
    var last := h[|h| - 1];
    if last.ok && SharesTimer(last.content) then StampedSends(h[..|h| - 1]) + [last] else StampedSends(h[..|h| - 1])
  }

  lemma {:induction false} StampedSendsCount(initial: U8, h: seq<Send>)
    requires forall k :: 0 <= k < |h| ==> StampRight(initial, h, k)
    ensures |StampedSends(h)| == StampsUsed(h)
    ensures forall k :: 0 <= k < |StampedSends(h)| ==> StampedSends(h)[k].content.stamp == StampValue(initial, k)
    decreases |h|
  {
    if h != [] {
      var n := |h| - 1;
      var g := h[..n];
      forall k | 0 <= k < n ensures StampRight(initial, g, k) {
        assert g[..k] == h[..k];
        assert StampRight(initial, h, k);
      }
      StampedSendsCount(initial, g);
      assert StampRight(initial, h, n);
    }
  }

  lemma MessageStamp(options: InputReport.ReportOptions, c: Content)
    requires SharesTimer(c)
    ensures var m := Message(options, c); |m| > 2 && m[0] == 0xA1 && m[2] == c.stamp
  {
    if c.FullState? {
      InputReport.FullReportFields(c.state, options.(timer := c.stamp), 0);
    }
  }

  /** Since each start, the k-th message sent with the shared timer byte, counting from 0,
      carries (initial + k) mod 256 in its third byte; failed sends use up no value. */
  lemma TimerBytesAreConsecutive(cfg: Config, es: seq<Event>, k: nat)
    requires Legal(Init(cfg), es) && Run(Init(cfg), es).running
    requires k < |StampedSends(Run(Init(cfg), es).line.sends)|
    ensures var s := StampedSends(Run(Init(cfg), es).line.sends)[k];
            s.ok && |Message(cfg.options, s.content)| > 2 &&
            Message(cfg.options, s.content)[2] == (cfg.options.timer + k) % 0x100
  {
    InvRun(cfg, es);
    ConfigKept(cfg, es);
    var h := Run(Init(cfg), es).line.sends;
    StampedSendsCount(cfg.options.timer, h);
    StampedSendsOk(h, k);
    MessageStamp(cfg.options, StampedSends(h)[k].content);
  }

  lemma {:induction false} StampedSendsOk(h: seq<Send>, k: nat)
    requires k < |StampedSends(h)|
    ensures StampedSends(h)[k].ok && SharesTimer(StampedSends(h)[k].content)
    decreases |h|
  {
    if k < |StampedSends(h[..|h| - 1])| {
      StampedSendsOk(h[..|h| - 1], k);
    }
  }

  // ---- Holdoff and urgent neutral ----

  /** Within a start, no periodic report is attempted less than 300 ms after a sent reply
      unless a pending neutral was delivered in between. */
  lemma RepliesHoldReportsOff(cfg: Config, es: seq<Event>, i: nat, j: nat)
    requires Legal(Init(cfg), es) && i < j < |Run(Init(cfg), es).line.sends|
    ensures var h := Run(Init(cfg), es).line.sends;
            ReplySent(h[i]) && h[j].kind == Periodic && !NeutralDelivered(h, i, j) ==> h[i].at + 300_000 <= h[j].at
  {
    InvRun(cfg, es);
  }

  /** A direct neutral failed at i, nothing went out between i and j, and j went out. */
  predicate FirstAfterFailedNeutral(h: seq<Send>, i: nat, j: nat)
    requires i < j < |h|
  {
    && h[i].kind == DirectNeutral && !h[i].ok
    && (forall k :: i < k < j ==> !h[k].ok)
    && h[j].ok
  }

  lemma {:induction false} OwedUntilSent(h: seq<Send>, i: nat, j: nat)
    requires i < j <= |h| && h[i].kind == DirectNeutral && !h[i].ok
    requires forall k :: i < k < j ==> !h[k].ok
    ensures NeutralOwed(h[..j])
    decreases j
  {
    assert h[..j][..j - 1] == h[..j - 1];
    if i < j - 1 {
      OwedUntilSent(h, i, j - 1);
    }
  }

  /** Once an urgent neutral is pending, the next message that goes out is a neutral one: on the wire
      it is the report of the neutral state, and reads back as such. */
  lemma NeutralGoesFirst(cfg: Config, es: seq<Event>, i: nat, j: nat)
    requires Legal(Init(cfg), es) && i < j < |Run(Init(cfg), es).line.sends|
    requires FirstAfterFailedNeutral(Run(Init(cfg), es).line.sends, i, j)
    ensures var s := Run(Init(cfg), es).line.sends[j];
            && NeutralKind(s.kind) && s.content == FullState(NEUTRAL, s.content.stamp)
            && InputReport.ReadReport(Message(cfg.options, s.content)[1..], 0) == Some(NEUTRAL)
  {
    InvRun(cfg, es);
    var s := Run(Init(cfg), es).line.sends[j];
    OwedUntilSent(Run(Init(cfg), es).line.sends, i, j);
    NeutralOnWire(cfg.options, s.content.stamp);
  }

  lemma NeutralOnWire(options: InputReport.ReportOptions, stamp: U8)
    ensures InputReport.ReadReport(Message(options, FullState(NEUTRAL, stamp))[1..], 0) == Some(NEUTRAL)
  {
    InputReport.ReadFullReport(NEUTRAL, options.(timer := stamp), 0);
    InputReport.TransmittedInRange(NEUTRAL);
    assert Message(options, FullState(NEUTRAL, stamp))[1..] ==
           InputReport.FullReport(NEUTRAL, options.(timer := stamp));
  }

  // ---- Replies ----

  /** The message is the reply behind the header byte, up to the timer byte of 0x21 reports. */
  predicate WireOf(m: seq<U8>, bytes: seq<U8>) {
    && |m| == |bytes| + 1 && m[0] == 0xA1
    && forall i :: 0 <= i < |bytes| && (i != 1 || bytes[0] != 0x21) ==> m[i + 1] == bytes[i]
  }

  /** Since the last init or stop, the accepted replies are the delivered ones, byte for byte
      and in order, followed by the ring. */
  lemma RepliesInOrder(cfg: Config, es: seq<Event>)
    requires Legal(Init(cfg), es)
    ensures var line := Run(Init(cfg), es).line;
            && |line.accepted| == |line.delivered| + |line.queue|
            && line.accepted[|line.delivered|..] == line.queue
            && (forall k :: 0 <= k < |line.delivered| ==>
                  && line.delivered[k].ok && line.delivered[k].cid == line.accepted[k].cid
                  && WireOf(Message(cfg.options, line.delivered[k].content), line.accepted[k].bytes))
  {
    InvRun(cfg, es);
    var line := Run(Init(cfg), es).line;
    forall k | 0 <= k < |line.delivered|
      ensures WireOf(Message(cfg.options, line.delivered[k].content), line.accepted[k].bytes)
    {
      CarriedOnWire(cfg.options, line.delivered[k], line.accepted[k]);
    }
  }

  lemma CarriedOnWire(options: InputReport.ReportOptions, s: Send, r: Reply)
    requires Carries(s, r)
    ensures WireOf(Message(options, s.content), r.bytes)
  {
  }

  /** While there is something to send a can-send event is owed. */
  predicate WorkRequested(p: Pump) {
    p.running && (p.canSendPending || p.neutralPending || p.line.queue != []) ==> p.requested
  }

  /** A can-send event that finds a reply queued and either fails to send it, or spends itself
      on a pending neutral. */
  predicate LosesRequest(p: Pump, e: Event) {
    e.EvCanSend? && p.running && p.line.queue != [] && p.neutralPending == e.ok
  }

  /** The one way work is left without a request. */
  lemma RequestLostIff(p: Pump, e: Event)
    requires Arming(p) && WorkRequested(p) && Enabled(p, e)
    ensures WorkRequested(Step(p, e)) <==> !LosesRequest(p, e)
  {
  }

  /** What gives work its request back, or leaves no work. */
  predicate RegainsRequest(p: Pump, e: Event) {
    match e
    case EvStart(_, _) => p.line.queue == []
    case EvStop(_) => true
    case EvTimer(_) => true
    case EvEnqueue(_, _, report) => SizeOk(report) && |p.line.queue| < CAPACITY
    case EvNeutralNow(_, ok) => !ok || (!p.canSendPending && p.line.queue == [])
    case EvCanSend(_, _, _) => !LosesRequest(p, e)
  }

  lemma RequestRegainedIff(p: Pump, e: Event)
    requires Inv(p) && !WorkRequested(p) && Enabled(p, e)
    ensures WorkRequested(Step(p, e)) <==> RegainsRequest(p, e)
  {
    if e.EvTimer? {
      TimerRegains(p, e);
    }
  }

  lemma TimerRegains(p: Pump, e: Event)
    requires Inv(p) && Enabled(p, e) && e.EvTimer?
    ensures WorkRequested(Step(p, e))
  {
    if Decide(p, e).Reschedule? {
      InvEntered(p, e);
      InvArming(p, e);
    }
  }

  /** Told from the events: a request was lost and has not been regained since. */
  predicate RequestLost(cfg: Config, es: seq<Event>) {
    es != [] &&
    var before, e := es[..|es| - 1], es[|es| - 1];
    var p := Run(Init(cfg), before);
    if RequestLost(cfg, before) then !RegainsRequest(p, e) else LosesRequest(p, e)
  }

  /** In every run, pending work is without a can-send request exactly if one was lost, in the one
      way it can be, and not regained since. */
  lemma {:induction false} WorkWaitsIff(cfg: Config, es: seq<Event>)
    requires Legal(Init(cfg), es)
    ensures WorkRequested(Run(Init(cfg), es)) <==> !RequestLost(cfg, es)
    decreases |es|
  {
    if es != [] {
      var before := es[..|es| - 1];
      var p := Run(Init(cfg), before);
      WorkWaitsIff(cfg, before);
      InvRun(cfg, before);
      if WorkRequested(p) {
        RequestLostIff(p, es[|es| - 1]);
      } else {
        RequestRegainedIff(p, es[|es| - 1]);
      }
    }
  }

  /** A run that ends with a queued reply and no request: one failed reply is enough. */
  lemma RepliesCanStrand(cfg: Config, s: State)
    ensures var es := [EvStart(0, 1), EvEnqueue(0, 1, [0x21, 0]), EvCanSend(0, false, s)];
            var p := Run(Init(cfg), es);
            Legal(Init(cfg), es) && p.running && p.line.queue == [Reply(1, [0x21, 0])] && !p.requested
  {
    var es := [EvStart(0, 1), EvEnqueue(0, 1, [0x21, 0]), EvCanSend(0, false, s)];
    var a := Step(Init(cfg), es[0]);
    var b := Step(a, es[1]);
    assert es[..2][..1] == es[..1] && es[..1][..0] == [];
    assert Legal(Init(cfg), []) && Enabled(Init(cfg), es[0]);
    assert Run(Init(cfg), es[..1]) == a && Legal(Init(cfg), es[..1]);
    assert Run(Init(cfg), es[..2]) == b && Legal(Init(cfg), es[..2]);
    assert Decide(b, es[2]) == Transmission(QueuedReply);
  }

  /** A run that ends with the pump running and nothing pending: one failed periodic report is
      enough. */
  lemma PumpCanStall(options: InputReport.ReportOptions, s: State)
    ensures var cfg, es := Config(8000, options), [EvStart(0, 1), EvTimer(8), EvCanSend(8, false, s)];
            var p := Run(Init(cfg), es);
            Legal(Init(cfg), es) && p.running && !p.timerPending && !p.canSendPending && !p.requested
  {
    var cfg, es := Config(8000, options), [EvStart(0, 1), EvTimer(8), EvCanSend(8, false, s)];
    var a := Step(Init(cfg), es[0]);
    var b := Step(a, es[1]);
    assert es[..2][..1] == es[..1] && es[..1][..0] == [];
    assert Legal(Init(cfg), []) && Enabled(Init(cfg), es[0]);
    assert Run(Init(cfg), es[..1]) == a && Legal(Init(cfg), es[..1]) && a.fireAt == 8;
    assert Run(Init(cfg), es[..2]) == b && Legal(Init(cfg), es[..2]);
    assert Decide(b, es[2]) == Transmission(Periodic);
  }

  predicate SendsSucceed(es: seq<Event>) {
    forall k :: 0 <= k < |es| ==> (es[k].EvCanSend? || es[k].EvNeutralNow? ==> es[k].ok)
  }

  /** If no send fails, pending work always has a can-send event coming. */
  lemma {:induction false} WorkIsRequested(cfg: Config, es: seq<Event>)
    requires Legal(Init(cfg), es) && SendsSucceed(es)
    ensures WorkRequested(Run(Init(cfg), es)) && !Run(Init(cfg), es).neutralPending
    decreases |es|
  {
    if es != [] {
      var before := Run(Init(cfg), es[..|es| - 1]);
      WorkIsRequested(cfg, es[..|es| - 1]);
      InvRun(cfg, es[..|es| - 1]);
      RequestLostIff(before, es[|es| - 1]);
      NoNewNeutral(before, es[|es| - 1]);
    }
  }

  lemma NoNewNeutral(p: Pump, e: Event)
    requires !p.neutralPending && (e.EvCanSend? || e.EvNeutralNow? ==> e.ok)
    ensures !Step(p, e).neutralPending
  {
  }

  predicate CanSendOk(e: Event) {
    e.EvCanSend? && e.ok
  }

  lemma DrainOne(p: Pump, e: Event)
    requires p.running && !p.neutralPending && p.line.queue != [] && CanSendOk(e)
    ensures var q := Step(p, e);
            && q.running && !q.neutralPending && q.line.queue == p.line.queue[1..]
            && |q.line.delivered| == |p.line.delivered| + 1 && p.line.delivered <= q.line.delivered
            && Carries(q.line.delivered[|p.line.delivered|], p.line.queue[0])
            && (q.line.queue != [] ==> q.requested)
  {
  }

  /** n can-send events drain n queued replies, in order, asking for the next each time. */
  lemma {:induction false} Drain(p: Pump, es: seq<Event>)
    requires p.running && !p.neutralPending && |es| <= |p.line.queue|
    requires forall k :: 0 <= k < |es| ==> CanSendOk(es[k])
    ensures var q := Run(p, es);
            && q.running && !q.neutralPending && q.line.queue == p.line.queue[|es|..]
            && |q.line.delivered| == |p.line.delivered| + |es| && p.line.delivered <= q.line.delivered
            && (forall k :: 0 <= k < |es| ==> Carries(q.line.delivered[|p.line.delivered| + k], p.line.queue[k]))
            && (es != [] && q.line.queue != [] ==> q.requested)
    decreases |es|
  {
    if es != [] {
      var n := |es| - 1;
      Drain(p, es[..n]);
      DrainOne(Run(p, es[..n]), es[n]);
    }
  }
}
