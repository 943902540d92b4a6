/** When the pump's timer is armed and for what time, told from the sender calls alone: the holdoff
    in force, the moment of the last arming, and with them the exact time of every periodic attempt
    that the environment takes up promptly. */
module PumpTiming {
  import opened ControllerState
  import opened Options
  import opened ReplyQueue
  import opened ReportPump
  import InputReport
  import Scheduler
  import PumpProperties

  // ---- What the sender calls say ----

  /** A call that succeeded and was not an urgent neutral: these settle the holdoff and arm. */
  predicate Settles(s: Send) {
    s.ok && s.kind != DirectNeutral
  }

  /** Up to when replies hold periodic reports off: 300 ms behind a reply that went out, and no
      longer once a periodic report or a pending neutral has gone out. */
  function HeldUntil(h: seq<Send>): nat {
    if h == [] then 0 else
    var last := h[|h| - 1];
    if !Settles(last) then HeldUntil(h[..|h| - 1])
    else if last.kind == QueuedReply then last.at + 300_000
    else 0
  }

  /** When the timer was last armed. */
  function ArmedAt(startedAt: nat, h: seq<Send>): nat {
    if h == [] then startedAt else
    var last := h[|h| - 1];
    if Settles(last) then last.at else ArmedAt(startedAt, h[..|h| - 1])
  }

  /** The first whole ms at or after a time in us. */
  function FirstMs(us: nat): nat {
    (us + 999) / 1000
  }

  /** The first ms, not before the last arming, that reaches both the holdoff and the deadline. */
  function FireMs(period: Scheduler.Period, startedAt: nat, h: seq<Send>): nat {
    var deadline := Scheduler.DeadlineAfter(startedAt, period, Ticks(h));
    FirstMs(Later(ArmedAt(startedAt, h), Later(HeldUntil(h), deadline)))
  }

  lemma FoldsSnoc(startedAt: nat, h: seq<Send>, s: Send)
    ensures HeldUntil(h + [s]) ==
            if !Settles(s) then HeldUntil(h) else if s.kind == QueuedReply then s.at + 300_000 else 0
    ensures ArmedAt(startedAt, h + [s]) == if Settles(s) then s.at else ArmedAt(startedAt, h)
  {
    assert (h + [s])[..|h|] == h;
  }

  /** The timer, or the can-send wait it turned into, is for the time the sender calls give. */
  predicate ArmedRight(p: Pump) {
    && (p.timerPending || p.canSendPending ==> p.fireAt == FireMs(p.cfg.period, p.line.startedAt, p.line.sends))
    && (p.canSendPending ==> p.fireAt <= p.clock)
  }

  /** All but replies go to the connection the pump was started for. */
  predicate Addressed(cid: U16, h: seq<Send>) {
    forall k :: 0 <= k < |h| && h[k].kind != QueuedReply ==> h[k].cid == cid
  }

  predicate Told(p: Pump) {
    if p.running then p.holdoffUntil == HeldUntil(p.line.sends) && ArmedRight(p) && Addressed(p.cid, p.line.sends)
    else p.holdoffUntil == 0
  }

  // ---- Preservation ----

  /** Arming just after a sender call at `now` sets the timer to the first ms that will do. */
  lemma ArmedFor(p: Pump, now: nat)
    requires now < CLOCK_LIMIT_MS && p.holdoffUntil <= now * 1000 + HOLDOFF_US
    requires p.line.nextDeadline <= now * 1000 + p.cfg.period
    ensures Arm(p, now).fireAt == FirstMs(Later(now * 1000, Later(p.holdoffUntil, p.line.nextDeadline)))
  {
  }

  lemma DeadlineTold(p: Pump)
    requires LineOk(p) && p.running
    ensures p.line.nextDeadline == Scheduler.DeadlineAfter(p.line.startedAt, p.cfg.period, Ticks(p.line.sends))
  {
  }

  lemma HoldoffEmit(p: Pump, s: Send, now: nat)
    requires p.holdoffUntil == HeldUntil(p.line.sends) && s.at == now * 1000
    requires (ReplySent(s) ==> p.line.queue != []) && (s.kind == Periodic && !s.ok ==> p.canSendPending)
    ensures Emit(p, s, now).holdoffUntil == HeldUntil(Emit(p, s, now).line.sends)
  {
    FoldsSnoc(p.line.startedAt, p.line.sends, s);
  }

  /** A call that settles arms the timer; one that does not leaves what is armed alone, or ends it. */
  lemma EmitArms(p: Pump, s: Send, now: nat)
    requires ReplySent(s) ==> p.line.queue != []
    ensures var q := Emit(p, s, now);
            && (Settles(s) ==> q.fireAt == Arm(q, now).fireAt)
            && (!Settles(s) && q.timerPending ==> p.timerPending)
            && (!Settles(s) && q.canSendPending ==> p.canSendPending && s.kind != Periodic)
            && (!Settles(s) ==> q.fireAt == p.fireAt)
            && (Settles(s) ==> !q.canSendPending)
            && q.line.startedAt == p.line.startedAt && q.line.sends == p.line.sends + [s] && q.cfg == p.cfg
  {
  }

  lemma ArmedEmit(p: Pump, s: Send, now: nat)
    requires ArmedRight(p) && Arming(p) && p.clock == now && s.at == now * 1000
    requires (ReplySent(s) ==> p.line.queue != []) && (s.kind == Periodic ==> p.canSendPending)
    requires var q := Emit(p, s, now);
             && q.holdoffUntil == HeldUntil(q.line.sends) && Arming(q)
             && q.line.nextDeadline == Scheduler.DeadlineAfter(q.line.startedAt, q.cfg.period, Ticks(q.line.sends))
    ensures ArmedRight(Emit(p, s, now))
  {
    var q := Emit(p, s, now);
    FoldsSnoc(p.line.startedAt, p.line.sends, s);
    HistorySnoc(p.line.sends, s);
    EmitArms(p, s, now);
    if Settles(s) {
      ClockKept(p, s, now);
      ArmedFor(q, now);
    }
  }

  lemma ClockKept(p: Pump, s: Send, now: nat)
    requires ReplySent(s) ==> p.line.queue != []
    ensures Emit(p, s, now).clock == p.clock && Emit(p, s, now).cid == p.cid && Emit(p, s, now).running == p.running
  {
  }

  lemma AddressedSnoc(cid: U16, h: seq<Send>, s: Send)
    requires Addressed(cid, h) && (s.kind != QueuedReply ==> s.cid == cid)
    ensures Addressed(cid, h + [s])
  {
  }

  lemma ToldEmit(p: Pump, s: Send, now: nat)
    requires Inv(p) && Told(p) && p.running && p.clock == now && s.at == now * 1000
    requires ReplySent(s) ==> p.line.queue != []
    requires s.kind == Periodic ==> p.canSendPending
    requires s.kind != QueuedReply ==> s.cid == p.cid
    requires Inv(Emit(p, s, now))
    ensures Told(Emit(p, s, now))
  {
    HoldoffEmit(p, s, now);
    EmitArms(p, s, now);
    ClockKept(p, s, now);
    AddressedSnoc(p.cid, p.line.sends, s);
    DeadlineTold(Emit(p, s, now));
    ArmedEmit(p, s, now);
  }

  lemma ToldBegin(p: Pump, e: Event)
    requires Inv(p) && e.EvStart? && p.clock <= e.now < CLOCK_LIMIT_MS
    ensures Told(Step(p, e))
  {
    var r := Restarted(Entered(p, e), e.now, e.newCid);
    assert Step(p, e) == Arm(r, e.now);
    ArmedFor(r, e.now);
  }

  lemma ToldQuiet(p: Pump, e: Event)
    requires Inv(p) && Told(p) && Enabled(p, e) && !Decide(p, e).Transmission? && !Decide(p, e).Begin?
    ensures Told(Step(p, e))
  {
    if Decide(p, e).Reschedule? || Decide(p, e).DropTick? {
      InvEntered(p, e);
      InvArming(p, e);
    }
  }

  lemma ToldSend(p: Pump, e: Event)
    requires Inv(p) && Told(p) && Enabled(p, e) && Decide(p, e).Transmission?
    ensures Told(Step(p, e))
  {
    InvEntered(p, e);
    InvStep(p, e);
    SendIs(p, e);
    ToldEmit(Entered(p, e), EventSend(p, e), e.now);
  }

  /** What a handler finds, and the call it makes. */
  lemma SendIs(p: Pump, e: Event)
    requires Told(p) && p.clock <= e.now && Decide(p, e).Transmission?
    ensures var q, s := Entered(p, e), EventSend(p, e);
            && Told(q) && q.running && q.clock == e.now && s.at == e.now * 1000
            && (ReplySent(s) ==> q.line.queue != []) && (s.kind == Periodic ==> q.canSendPending)
            && (s.kind != QueuedReply ==> s.cid == q.cid)
            && Step(p, e) == Emit(q, s, e.now)
  {
  }

  lemma ToldStep(p: Pump, e: Event)
    requires Inv(p) && Told(p) && Enabled(p, e)
    ensures Told(Step(p, e))
  {
    if Decide(p, e).Transmission? {
      ToldSend(p, e);
    } else if Decide(p, e).Begin? {
      ToldBegin(p, e);
    } else {
      ToldQuiet(p, e);
    }
  }

  lemma {:induction false} ToldRun(cfg: Config, es: seq<Event>)
    requires Legal(Init(cfg), es)
    ensures Inv(Run(Init(cfg), es)) && Told(Run(Init(cfg), es))
    decreases |es|
  {
    if es != [] {
      ToldRun(cfg, es[..|es| - 1]);
      InvStep(Run(Init(cfg), es[..|es| - 1]), es[|es| - 1]);
      ToldStep(Run(Init(cfg), es[..|es| - 1]), es[|es| - 1]);
    }
  }

  // ---- What every run guarantees ----

  /** While the pump runs, its holdoff is what the sender calls since the start say: a reply that went
      out holds reports off for 300 ms, and the next periodic report or delivered pending neutral
      ends that at once. A stopped pump holds nothing off. */
  lemma HoldoffIsTold(cfg: Config, es: seq<Event>)
    requires Legal(Init(cfg), es)
    ensures var p := Run(Init(cfg), es); p.holdoffUntil == if p.running then HeldUntil(p.line.sends) else 0
  {
    ToldRun(cfg, es);
  }

  /** An armed timer is set to the first ms, not before the arming, that reaches the holdoff and the
      deadline: neither earlier nor later. */
  lemma TimerIsTold(cfg: Config, es: seq<Event>)
    requires Legal(Init(cfg), es) && Run(Init(cfg), es).timerPending
    ensures var p := Run(Init(cfg), es);
            p.fireAt == FireMs(cfg.period, p.line.startedAt, p.line.sends)
  {
    ToldRun(cfg, es);
    PumpProperties.ConfigKept(cfg, es);
  }

  /** The time of the last start and its connection. */
  function LastStart(es: seq<Event>): (nat, U16) {
    if es == [] then (0, 0)
    else if es[|es| - 1].EvStart? then (es[|es| - 1].now, es[|es| - 1].newCid)
    else LastStart(es[..|es| - 1])
  }

  lemma StartKept(p: Pump, e: Event)
    ensures var q := Step(p, e);
            if e.EvStart? then q.cid == e.newCid && q.line.startedAt == e.now * 1000
            else q.cid == p.cid && q.line.startedAt == p.line.startedAt
  {
    SendsAfter(p, e);
    if Decide(p, e).Transmission? {
      ClockKept(Entered(p, e), EventSend(p, e), e.now);
    }
  }

  lemma {:induction false} StartIsTold(cfg: Config, es: seq<Event>)
    ensures var p := Run(Init(cfg), es); p.cid == LastStart(es).1 && p.line.startedAt == LastStart(es).0 * 1000
    decreases |es|
  {
    if es != [] {
      StartIsTold(cfg, es[..|es| - 1]);
      StartKept(Run(Init(cfg), es[..|es| - 1]), es[|es| - 1]);
    }
  }

  /** The attempts of a running pump are counted from its last start, and every periodic and every
      neutral report since goes to the connection that start was for. */
  lemma ReportsAreAddressed(cfg: Config, es: seq<Event>)
    requires Legal(Init(cfg), es) && Run(Init(cfg), es).running
    ensures Run(Init(cfg), es).line.startedAt == LastStart(es).0 * 1000
    ensures Addressed(LastStart(es).1, Run(Init(cfg), es).line.sends)
  {
    ToldRun(cfg, es);
    StartIsTold(cfg, es);
  }

  // ---- Prompt environments ----

  /** While a timer or a can-send wait is on, nothing comes later than the timer's time. */
  predicate InTime(p: Pump, e: Event) {
    p.timerPending || p.canSendPending ==> e.now <= p.fireAt
  }

  predicate Prompt(cfg: Config, es: seq<Event>) {
    es == [] || (Prompt(cfg, es[..|es| - 1]) && InTime(Run(Init(cfg), es[..|es| - 1]), es[|es| - 1]))
  }

  /** Periodic attempt k came at the very ms the calls before it give. */
  predicate OnTheDot(period: Scheduler.Period, startedAt: nat, h: seq<Send>, k: nat)
    requires k < |h|
  {
    h[k].kind == Periodic ==> h[k].at == 1000 * FireMs(period, startedAt, h[..k])
  }

  predicate AllOnTheDot(period: Scheduler.Period, line: Line) {
    forall k :: 0 <= k < |line.sends| ==> OnTheDot(period, line.startedAt, line.sends, k)
  }

  lemma OnTheDotSnoc(period: Scheduler.Period, startedAt: nat, h: seq<Send>, s: Send)
    requires forall k :: 0 <= k < |h| ==> OnTheDot(period, startedAt, h, k)
    requires s.kind == Periodic ==> s.at == 1000 * FireMs(period, startedAt, h)
    ensures forall k :: 0 <= k <= |h| ==> OnTheDot(period, startedAt, h + [s], k)
  {
    forall k | 0 <= k <= |h| ensures OnTheDot(period, startedAt, h + [s], k) {
      assert (h + [s])[..k] == h[..k];
      if k < |h| {
        assert OnTheDot(period, startedAt, h, k);
      } else {
        assert h[..k] == h;
      }
    }
  }

  /** What an event does to the record of sender calls. */
  lemma SendsAfter(p: Pump, e: Event)
    ensures var q := Step(p, e);
            if Decide(p, e).Begin? then q.line.sends == []
            else if Decide(p, e).Transmission? then
              q.line.sends == p.line.sends + [EventSend(p, e)] && q.line.startedAt == p.line.startedAt
            else q.line.sends == p.line.sends && q.line.startedAt == p.line.startedAt
  {
    if Decide(p, e).Transmission? {
      EmitArms(Entered(p, e), EventSend(p, e), e.now);
    } else {
      QuietSends(p, e);
    }
  }

  lemma QuietSends(p: Pump, e: Event)
    requires !Decide(p, e).Transmission?
    ensures var q := Step(p, e);
            if e.EvStart? then q.line.sends == []
            else q.line.sends == p.line.sends && q.line.startedAt == p.line.startedAt
  {
  }

  lemma {:induction false} PromptRun(cfg: Config, es: seq<Event>)
    requires Legal(Init(cfg), es) && Prompt(cfg, es)
    ensures Run(Init(cfg), es).running ==> AllOnTheDot(cfg.period, Run(Init(cfg), es).line)
    decreases |es|
  {
    if es != [] {
      var p, e := Run(Init(cfg), es[..|es| - 1]), es[|es| - 1];
      PromptRun(cfg, es[..|es| - 1]);
      ToldRun(cfg, es[..|es| - 1]);
      PumpProperties.ConfigKept(cfg, es[..|es| - 1]);
      SendsAfter(p, e);
      if Decide(p, e).Transmission? {
        OnTheDotSnoc(cfg.period, p.line.startedAt, p.line.sends, EventSend(p, e));
      }
    }
  }

  /** When every event that is due comes at its ms, periodic attempt k is made exactly at the first
      ms that reaches the holdoff of the replies sent before it and the deadline of the attempts
      before it. */
  lemma PromptAttempts(cfg: Config, es: seq<Event>, k: nat)
    requires Legal(Init(cfg), es) && Prompt(cfg, es) && Run(Init(cfg), es).running
    requires k < |Run(Init(cfg), es).line.sends| && Run(Init(cfg), es).line.sends[k].kind == Periodic
    ensures var line := Run(Init(cfg), es).line;
            line.sends[k].at == 1000 * FireMs(cfg.period, line.startedAt, line.sends[..k])
  {
    PromptRun(cfg, es);
    assert OnTheDot(cfg.period, Run(Init(cfg), es).line.startedAt, Run(Init(cfg), es).line.sends, k);
  }

  /** No reply and no pending neutral has gone out. */
  predicate OnlyPeriodic(h: seq<Send>) {
    forall k :: 0 <= k < |h| && Settles(h[k]) ==> h[k].kind == Periodic
  }

  /** Attempt n came at the first ms that reaches its deadline. */
  predicate AtDeadline(period: Scheduler.Period, startedAt: nat, ticks: seq<nat>, n: nat)
    requires n < |ticks|
  {
    ticks[n] == 1000 * FirstMs(Scheduler.DeadlineAfter(startedAt, period, ticks[..n]))
  }

  lemma {:induction false} OnlyPeriodicTimes(period: Scheduler.Period, startedAt: nat, h: seq<Send>)
    requires OnlyPeriodic(h) && forall k :: 0 <= k < |h| ==> OnTheDot(period, startedAt, h, k)
    ensures HeldUntil(h) == 0 && ArmedAt(startedAt, h) <= Scheduler.DeadlineAfter(startedAt, period, Ticks(h))
    ensures forall n :: 0 <= n < |Ticks(h)| ==> AtDeadline(period, startedAt, Ticks(h), n)
    decreases |h|
  {
    if h != [] {
      var g, s := h[..|h| - 1], h[|h| - 1];
      forall k | 0 <= k < |g| ensures OnTheDot(period, startedAt, g, k) {
        assert OnTheDot(period, startedAt, h, k) && g[..k] == h[..k];
      }
      OnlyPeriodicTimes(period, startedAt, g);
      assert OnTheDot(period, startedAt, h, |g|);
      if s.kind == Periodic {
        TicksSnoc(period, startedAt, Ticks(g), s.at);
      }
    }
  }

  lemma TicksSnoc(period: Scheduler.Period, startedAt: nat, ticks: seq<nat>, t: nat)
    requires forall n :: 0 <= n < |ticks| ==> AtDeadline(period, startedAt, ticks, n)
    requires t == 1000 * FirstMs(Scheduler.DeadlineAfter(startedAt, period, ticks))
    ensures forall n :: 0 <= n <= |ticks| ==> AtDeadline(period, startedAt, ticks + [t], n)
    ensures t < Scheduler.DeadlineAfter(startedAt, period, ticks + [t])
  {
    forall n | 0 <= n <= |ticks| ensures AtDeadline(period, startedAt, ticks + [t], n) {
      assert (ticks + [t])[..n] == ticks[..n];
      if n < |ticks| {
        assert AtDeadline(period, startedAt, ticks, n);
      } else {
        assert ticks[..n] == ticks;
      }
    }
    assert (ticks + [t])[..|ticks|] == ticks;
  }

  /** With periods of at least a ms and no reply and no pending neutral sent since the start, a prompt
      environment gets attempt n, counting from 1, less than a ms after start + n periods, for ever. */
  lemma PromptAttemptsKeepTheGrid(cfg: Config, es: seq<Event>, n: nat)
    requires Legal(Init(cfg), es) && Prompt(cfg, es) && Run(Init(cfg), es).running && cfg.period >= 1000
    requires OnlyPeriodic(Run(Init(cfg), es).line.sends)
    requires 1 <= n <= |Ticks(Run(Init(cfg), es).line.sends)|
    ensures var line := Run(Init(cfg), es).line;
            line.startedAt + n * cfg.period <= Ticks(line.sends)[n - 1] < line.startedAt + n * cfg.period + 1000
  {
    var line := Run(Init(cfg), es).line;
    var start, ticks := line.startedAt, Ticks(line.sends);
    PromptRun(cfg, es);
    OnlyPeriodicTimes(cfg.period, start, line.sends);
    forall k | 0 <= k < |ticks| ensures Scheduler.Timely(start, cfg.period, ticks, k) {
      assert AtDeadline(cfg.period, start, ticks, k);
    }
    Scheduler.TimelyStaysOnGrid(start, cfg.period, ticks, n - 1);
    assert AtDeadline(cfg.period, start, ticks, n - 1);
  }

  // ---- Which message goes out, and what the caller is told ----

  /** One more sender call, made at the event's time with the event's outcome. */
  predicate Sends(h: seq<Send>, g: seq<Send>, e: Event, kind: Kind)
    requires e.EvCanSend? || e.EvNeutralNow?
  {
    && |g| == |h| + 1 && g[..|h|] == h
    && g[|h|].kind == kind && g[|h|].ok == e.ok && g[|h|].at == e.now * 1000
  }

  /** In every run: a can-send event of a running pump sends the owed neutral first, then the oldest
      reply not yet delivered, then the report the timer asked for; an urgent neutral is sent at
      once; nothing else sends anything. */
  lemma MessageOrder(cfg: Config, es: seq<Event>, e: Event)
    requires Legal(Init(cfg), es) && Enabled(Run(Init(cfg), es), e)
    ensures var p := Run(Init(cfg), es);
            var h, g := p.line.sends, Step(p, e).line.sends;
            if e.EvStart? then g == []
            else if p.running && e.EvNeutralNow? then Sends(h, g, e, DirectNeutral)
            else if !p.running || !e.EvCanSend? then g == h
            else if NeutralOwed(h) then Sends(h, g, e, PendingNeutral)
            else if |p.line.accepted| > |p.line.delivered| then Sends(h, g, e, QueuedReply)
            else if p.canSendPending then Sends(h, g, e, Periodic)
            else g == h
  {
    var p := Run(Init(cfg), es);
    InvRun(cfg, es);
    SendsAfter(p, e);
    if Decide(p, e).Reschedule? || Decide(p, e).DropTick? {
      InvEntered(p, e);
      InvArming(p, e);
    }
  }

  /** The observer is told of exactly the periodic attempts, with their times and outcomes. */
  lemma NoticesAreAttempts(p: Pump, e: Event)
    ensures var h, g := p.line.sends, Step(p, e).line.sends;
            var attempted := !e.EvStart? && |g| > |h| && g[|h|].kind == Periodic;
            Noticed(p, e) == if attempted then Some(Notice(g[|h|].at, g[|h|].ok)) else None
  {
    SendsAfter(p, e);
  }

  /** In every run a can-send event is asked for by the timer, by a reply taken on, by a neutral that
      failed and by a reply sent with another one behind it, and by nothing else. */
  lemma RequestsAreTold(cfg: Config, es: seq<Event>, e: Event)
    requires Legal(Init(cfg), es) && Enabled(Run(Init(cfg), es), e)
    ensures var p := Run(Init(cfg), es);
            Step(p, e).requested <==>
              match e
              case EvCanSend(_, ok, _) =>
                p.running && if NeutralOwed(p.line.sends) then !ok
                             else ok && |p.line.accepted| > |p.line.delivered| + 1
              case EvTimer(_) => p.requested || p.running
              case EvEnqueue(_, _, report) => p.requested || (p.running && Queueable(p.line, report))
              case EvNeutralNow(_, ok) => p.requested || (p.running && !ok)
              case _ => p.requested
  {
    InvRun(cfg, es);
    if e.EvCanSend? {
      CanSendRequest(Run(Init(cfg), es), e);
    } else {
      RequestTold(Run(Init(cfg), es), e);
    }
  }

  lemma RequestTold(p: Pump, e: Event)
    requires Inv(p) && Enabled(p, e) && !e.EvCanSend?
    ensures Step(p, e).requested <==>
              || p.requested
              || (p.running && match e
                               case EvTimer(_) => true
                               case EvEnqueue(_, _, report) => Queueable(p.line, report)
                               case EvNeutralNow(_, ok) => !ok
                               case _ => false)
  {
    if e.EvTimer? {
      TimerTold(p, e);
    }
  }

  lemma CanSendRequest(p: Pump, e: Event)
    requires Inv(p) && Enabled(p, e) && e.EvCanSend?
    ensures Step(p, e).requested <==> p.running && if p.neutralPending then !e.ok else e.ok && |p.line.queue| > 1
  {
  }

  /** Refused are replies of no bytes or more than 50, and a fifth one outstanding. */
  predicate Queueable(line: Line, report: seq<U8>) {
    1 <= |report| <= 50 && |line.accepted| < |line.delivered| + 4
  }

  /** The result says whether the event did what it is for. */
  predicate Honest(p: Pump, e: Event, q: Pump, result: Result) {
    match e
    case EvStart(_, _) => result == Success
    case EvStop(_) => result == Success
    case EvTimer(_) =>
      result == (if p.running then Success else Stopped) && (p.running ==> q.canSendPending && q.requested)
    case EvCanSend(_, ok, _) =>
      result == if !p.running then Stopped
                else if |q.line.sends| <= |p.line.sends| then NotDue
                else if ok then Success
                else if q.line.sends[|p.line.sends|].kind == QueuedReply then ReplyQueueError else SchedulerError
    case EvEnqueue(_, replyCid, report) =>
      && result == (if !p.running then Stopped else if Queueable(p.line, report) then Success else ReplyQueueError)
      && q.line.accepted ==
         if result == Success then p.line.accepted + [Reply(replyCid, report)] else p.line.accepted
    case EvNeutralNow(_, ok) =>
      && result == (if !p.running then Stopped else if ok then Success else Pending)
      && (p.running ==> |q.line.sends| > |p.line.sends|)
      && (result == Pending ==> q.neutralPending && q.requested && NeutralOwed(q.line.sends))
  }

  /** In every run the caller is told of success exactly if the event did what it is for: a message
      went out, the reply was taken on, the can-send event was asked for. A stopped pump says so and
      does nothing, and a failed urgent neutral is reported as pending and stays owed. */
  lemma ResultsAreHonest(cfg: Config, es: seq<Event>, e: Event)
    requires Legal(Init(cfg), es) && Enabled(Run(Init(cfg), es), e)
    ensures Honest(Run(Init(cfg), es), e, Step(Run(Init(cfg), es), e), Returned(Run(Init(cfg), es), e))
  {
    var p := Run(Init(cfg), es);
    InvRun(cfg, es);
    match e
    case EvTimer(_) => TimerTold(p, e);
    case EvEnqueue(_, _, _) => EnqueueTold(p, e);
    case EvNeutralNow(_, _) => NeutralTold(p, e);
    case EvCanSend(_, _, _) => CanSendTold(p, e);
    case _ =>
  }

  lemma TimerTold(p: Pump, e: Event)
    requires Inv(p) && Enabled(p, e) && e.EvTimer?
    ensures Honest(p, e, Step(p, e), Returned(p, e))
  {
    if Decide(p, e).Reschedule? {
      InvEntered(p, e);
      InvArming(p, e);
    }
  }

  lemma EnqueueTold(p: Pump, e: Event)
    requires Inv(p) && e.EvEnqueue?
    ensures Honest(p, e, Step(p, e), Returned(p, e))
  {
  }

  lemma NeutralTold(p: Pump, e: Event)
    requires Inv(p) && Enabled(p, e) && e.EvNeutralNow?
    ensures Honest(p, e, Step(p, e), Returned(p, e))
  {
    InvStep(p, e);
    SendsAfter(p, e);
  }

  lemma CanSendTold(p: Pump, e: Event)
    requires Inv(p) && Enabled(p, e) && e.EvCanSend?
    ensures Honest(p, e, Step(p, e), Returned(p, e))
  {
    SendsAfter(p, e);
    if Decide(p, e).Reschedule? {
      InvEntered(p, e);
      InvArming(p, e);
    }
  }
}
