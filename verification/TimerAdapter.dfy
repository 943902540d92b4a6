/** The timer adapter object: the fields the handlers update in place, proved against the
    report pump. The run loop, the can-send port and the clock are the environment: `now` is
    what the clock reads in ms, `sendOk` whether the sender call of this handler succeeds. */
module TimerAdapter {
  import opened ControllerState
  import opened Options
  import opened ReportPump
  import InputReport
  import ReplyQueue
  import Scheduler

  class Adapter {
    const scheduler: Scheduler.ReportScheduler
    const replies: ReplyQueue.Queue
    var running: bool
    var cid: U16
    var timerPending: bool
    var canSendPending: bool
    var neutralPending: bool
    var holdoffUntil: nat

    // What the ports were asked to do, and the history.
    ghost var clock: nat
    ghost var fireAt: nat
    ghost var requested: bool
    ghost var startedAt: nat
    ghost var sends: seq<Send>
    ghost var accepted: seq<ReplyQueue.Reply>
    ghost var delivered: seq<Send>

    ghost predicate Valid()
      reads this, scheduler, replies, replies.items
    {
      && scheduler.Valid() && replies.Valid()
      && running == scheduler.running && (running ==> scheduler.cid == cid)
    }

    ghost function LineState(): Line
      reads this, scheduler, replies
    {
      Line(scheduler.nextDeadline, scheduler.timer, replies.contents, startedAt, sends, accepted, delivered)
    }

    ghost function State(): Pump
      reads this, scheduler, replies
    {
      Pump(Config(scheduler.period, scheduler.options), running, cid, timerPending, canSendPending, neutralPending,
           holdoffUntil, LineState(), clock, fireAt, requested)
    }

    constructor (period: Scheduler.Period, options: InputReport.ReportOptions)
      ensures Valid() && fresh(scheduler) && fresh(scheduler.scratch) && fresh(replies) && fresh(replies.items)
      ensures State() == Init(Config(period, options))
    {
      scheduler := new Scheduler.ReportScheduler(period, options);
      replies := new ReplyQueue.Queue();
      running, cid, timerPending, canSendPending, neutralPending, holdoffUntil := false, 0, false, false, false, 0;
      clock, fireAt, requested, startedAt, sends, accepted, delivered := 0, 0, false, 0, [], [], [];
    }

    method ScheduleNext(now: nat)
      modifies this`timerPending, this`fireAt
      ensures State() == Arm(old(State()), now)
    {
      var deadline := if holdoffUntil > scheduler.nextDeadline then holdoffUntil else scheduler.nextDeadline;
      var delay := DelayMs(now * 1000, deadline);
      fireAt := now + delay;
      timerPending := true;
    }

    /** Builds the HIDP message; a 0x21 report gets the shared timer byte, which moves on if
        the send succeeds. */
    method SendHidp(report: seq<U8>, sendOk: bool) returns (message: seq<U8>)
      requires Valid() && |report| > 0
      modifies scheduler`timer
      ensures Valid()
      ensures var shared := |report| > 1 && report[0] == InputReport.REPLY_ID;
              && message == (if shared then ([HIDP_HEADER] + report)[2 := old(scheduler.timer)]
                  else [HIDP_HEADER] + report)
              && scheduler.timer == (if shared && sendOk then NextTimer(old(scheduler.timer)) else old(scheduler.timer))
    {
      message := [HIDP_HEADER];
      for i := 0 to |report|
        invariant message == [HIDP_HEADER] + report[..i]
      {
        message := message + [report[i]];
      }
      assert report[..|report|] == report;
      var shared := |report| > 1 && report[0] == InputReport.REPLY_ID;
      if shared {
        message := message[2 := scheduler.timer];
      }
      if sendOk && shared {
        scheduler.timer := (scheduler.timer + 1) % 0x100;
      }
    }

    method SendNeutralReport(kind: Kind, now: nat, sendOk: bool) returns (message: seq<U8>)
      requires Valid() && NeutralKind(kind)
      modifies this`sends, scheduler`timer, scheduler.scratch
      ensures Valid()
      ensures var s := SendOf(old(State()), kind, now, sendOk, NEUTRAL);
              State() == old(State()).(line := Transmit(old(State()).cfg, old(LineState()), s))
      ensures message == Message(scheduler.options, FullState(NEUTRAL, old(scheduler.timer)))
    {
      ghost var stamp := scheduler.timer;
      FullIsNoReply(NEUTRAL, scheduler.options.(timer := scheduler.timer));
      var report := scheduler.BuildReport(NEUTRAL);
      message := SendHidp(report, sendOk);
      if sendOk {
        scheduler.timer := (scheduler.timer + 1) % 0x100;
      }
      sends := sends + [Send(kind, now * 1000, sendOk, cid, FullState(NEUTRAL, stamp))];
    }

    /** Everything a start does but arming the timer. */
    method Reset(now: nat, newCid: U16)
      requires Valid()
      modifies this, scheduler
      ensures Valid()
      ensures State() == Restarted(old(State()), now, newCid)
    {
      scheduler.Start(newCid, now * 1000);
      cid, running, timerPending, canSendPending, holdoffUntil, neutralPending,
        clock, startedAt, sends := newCid, true, false, false, 0, false, now, now * 1000, [];
    }

    method Start(now: nat, newCid: U16)
      requires Valid()
      modifies this, scheduler
      ensures Valid() && State() == Step(old(State()), EvStart(now, newCid))
    {
      Reset(now, newCid);
      ScheduleNext(now);
    }

    method OnTimer(now: nat) returns (result: Result)
      requires Valid()
      modifies this
      ensures Valid() && State() == Step(old(State()), EvTimer(now)) && result == Returned(old(State()), EvTimer(now))
    {
      clock := now;
      if !running {
        return Stopped;
      }
      if now * 1000 < holdoffUntil {
        timerPending := false;
        ScheduleNext(now);
        return Success;
      }
      timerPending, canSendPending := false, true;
      requested := true;
      return Success;
    }

    /** The can-send path for a pending neutral. */
    method CanSendNeutral(now: nat, sendOk: bool) returns (result: Result, message: seq<U8>)
      requires Valid()
      modifies this, scheduler`timer, scheduler.scratch
      ensures Valid() && result == if sendOk then Success else SchedulerError
      ensures State() == Emit(old(State()), SendOf(old(State()), PendingNeutral, now, sendOk, NEUTRAL), now)
      ensures message == Message(scheduler.options, FullState(NEUTRAL, old(scheduler.timer)))
    {
      message := SendNeutralReport(PendingNeutral, now, sendOk);
      if !sendOk {
        requested := true;
        return SchedulerError, message;
      }
      SettleNeutral(now);
      return Success, message;
    }

    method SettleNeutral(now: nat)
      modifies this`neutralPending, this`canSendPending, this`holdoffUntil, this`timerPending, this`fireAt
      ensures State() == Arm(old(State()).(neutralPending := false, canSendPending := false, holdoffUntil := 0), now)
    {
      neutralPending, canSendPending, holdoffUntil, timerPending := false, false, 0, false;
      ScheduleNext(now);
    }

    /** Sends the reply at the head of the ring; it leaves the ring only if the send succeeds. */
    method SendReplyReport(now: nat, sendOk: bool) returns (message: seq<U8>)
      requires Valid() && replies.contents != []
      modifies this`sends, this`delivered, scheduler`timer, replies, replies.items
      ensures Valid()
      ensures var s := SendOf(old(State()), QueuedReply, now, sendOk, NEUTRAL);
              && State() == old(State()).(line := Transmit(old(State()).cfg, old(LineState()), s))
              && message == Message(scheduler.options, s.content)
    {
      ghost var s := SendOf(State(), QueuedReply, now, sendOk, NEUTRAL);
      var sent, handed := replies.SendNext(sendOk);
      message := SendHidp(handed.value.bytes, sendOk);
      Record(s);
    }

    /** Notes a sender call in the history. */
    method Record(ghost s: Send)
      modifies this`sends, this`delivered
      ensures sends == old(sends) + [s] && delivered == if ReplySent(s) then old(delivered) + [s] else old(delivered)
    {
      sends, delivered := sends + [s], if ReplySent(s) then delivered + [s] else delivered;
    }

    /** The can-send path for a queued reply. */
    method CanSendReply(now: nat, sendOk: bool) returns (result: Result, message: seq<U8>)
      requires Valid() && replies.contents != []
      modifies this, scheduler`timer, replies, replies.items
      ensures Valid()
      ensures var s := SendOf(old(State()), QueuedReply, now, sendOk, NEUTRAL);
              && State() == Emit(old(State()), s, now) && result == EmitResult(s)
              && message == Message(scheduler.options, s.content)
    {
      message := SendReplyReport(now, sendOk);
      if !sendOk {
        return ReplyQueueError, message;
      }
      SettleReply(now);
      return Success, message;
    }

    method SettleReply(now: nat)
      requires replies.Valid()
      modifies this`canSendPending, this`holdoffUntil, this`timerPending, this`fireAt, this`requested
      ensures State() == Arm(old(State()).(holdoffUntil := now * 1000 + HOLDOFF_US, canSendPending := false,
                                           requested := old(requested) || replies.contents != []), now)
    {
      holdoffUntil, canSendPending, timerPending := now * 1000 + HOLDOFF_US, false, false;
      ScheduleNext(now);
      if replies.count > 0 || canSendPending {
        requested := true;
      }
    }

    /** One due tick of the scheduler: its report goes to the sender. */
    method SendTickReport(now: nat, sendOk: bool, state: ControllerState.State) returns (message: seq<U8>)
      requires Valid() && running && scheduler.nextDeadline <= now * 1000
      modifies this`sends, scheduler`nextDeadline, scheduler`timer, scheduler.scratch
      ensures Valid()
      ensures var s := SendOf(old(State()), Periodic, now, sendOk, state);
              && State() == old(State()).(line := Transmit(old(State()).cfg, old(LineState()), s))
              && message == Message(scheduler.options, s.content)
    {
      ghost var s := SendOf(State(), Periodic, now, sendOk, state);
      FullIsNoReply(state, scheduler.options.(timer := scheduler.timer));
      var ticked, handed := scheduler.Tick(now * 1000, state, sendOk);
      message := SendHidp(handed.value, sendOk);
      sends := sends + [s];
    }

    /** The can-send path for the periodic report. */
    method CanSendTick(now: nat, sendOk: bool, state: ControllerState.State)
      returns (result: Result, message: Option<seq<U8>>, noticed: Option<Notice>)
      requires Valid() && running && !neutralPending && canSendPending && replies.contents == [] && clock == now
      modifies this, scheduler`nextDeadline, scheduler`timer, scheduler.scratch
      ensures Valid()
      ensures State() == Step(old(State()), EvCanSend(now, sendOk, state)).(requested := old(requested))
      ensures result == Returned(old(State()), EvCanSend(now, sendOk, state))
      ensures message == Emitted(old(State()), EvCanSend(now, sendOk, state))
      ensures noticed == Noticed(old(State()), EvCanSend(now, sendOk, state))
    {
      if now * 1000 < holdoffUntil {
        canSendPending := false;
        ScheduleNext(now);
        return Success, None, None;
      }
      if now * 1000 < scheduler.nextDeadline {
        canSendPending := false;
        return NotDue, None, None;
      }
      var wire := SendTickReport(now, sendOk, state);
      var notice := Notice(now * 1000, sendOk);
      canSendPending := false;
      if !sendOk {
        return SchedulerError, Some(wire), Some(notice);
      }
      holdoffUntil := 0;
      ScheduleNext(now);
      return Success, Some(wire), Some(notice);
    }

    /** What a running adapter does with a can-send event that has been taken note of. */
    method CanSendNext(now: nat, sendOk: bool, state: ControllerState.State)
      returns (result: Result, message: Option<seq<U8>>, noticed: Option<Notice>)
      requires Valid() && running && clock == now && !requested
      modifies this, scheduler`nextDeadline, scheduler`timer, scheduler.scratch, replies, replies.items
      ensures Valid() && State() == Step(old(State()), EvCanSend(now, sendOk, state))
      ensures result == Returned(old(State()), EvCanSend(now, sendOk, state))
      ensures message == Emitted(old(State()), EvCanSend(now, sendOk, state))
      ensures noticed == Noticed(old(State()), EvCanSend(now, sendOk, state))
    {
      if neutralPending {
        var r, m := CanSendNeutral(now, sendOk);
        return r, Some(m), None;
      }
      if replies.count > 0 {
        var r, m := CanSendReply(now, sendOk);
        return r, Some(m), None;
      }
      if !canSendPending {
        return NotDue, None, None;
      }
      result, message, noticed := CanSendTick(now, sendOk, state);
    }

    /** At most one message goes out: the pending neutral first, then a queued reply, then the
        periodic report if one is waiting. The observer is told of a periodic attempt. */
    method OnCanSendNow(now: nat, sendOk: bool, state: ControllerState.State)
      returns (result: Result, message: Option<seq<U8>>, noticed: Option<Notice>)
      requires Valid()
      modifies this, scheduler`nextDeadline, scheduler`timer, scheduler.scratch, replies, replies.items
      ensures Valid() && State() == Step(old(State()), EvCanSend(now, sendOk, state))
      ensures result == Returned(old(State()), EvCanSend(now, sendOk, state))
      ensures message == Emitted(old(State()), EvCanSend(now, sendOk, state))
      ensures noticed == Noticed(old(State()), EvCanSend(now, sendOk, state))
    {
      clock, requested := now, false;
      TakenNoteOf(old(State()), now, sendOk, state);
      assert State() == old(State()).(clock := now, requested := false);
      if !running {
        return Stopped, None, None;
      }
      result, message, noticed := CanSendNext(now, sendOk, state);
    }

    method EnqueueSubcommandReply(now: nat, replyCid: U16, report: seq<U8>) returns (result: Result)
      requires Valid()
      modifies this, replies, replies.items
      ensures Valid() && State() == Step(old(State()), EvEnqueue(now, replyCid, report))
      ensures result == Returned(old(State()), EvEnqueue(now, replyCid, report))
    {
      clock := now;
      if !running {
        return Stopped;
      }
      var queued := replies.Enqueue(replyCid, report);
      if queued != ReplyQueue.Ok {
        return ReplyQueueError;
      }
      accepted := accepted + [ReplyQueue.Reply(replyCid, report)];
      requested := true;
      return Success;
    }

    method SendNeutralNow(now: nat, sendOk: bool) returns (result: Result, message: Option<seq<U8>>)
      requires Valid()
      modifies this, scheduler`timer, scheduler.scratch
      ensures Valid() && State() == Step(old(State()), EvNeutralNow(now, sendOk))
      ensures result == Returned(old(State()), EvNeutralNow(now, sendOk))
      ensures message == Emitted(old(State()), EvNeutralNow(now, sendOk))
    {
      clock := now;
      if !running {
        return Stopped, None;
      }
      var m := SendNeutralReport(DirectNeutral, now, sendOk);
      message := Some(m);
      OweNeutral(!sendOk);
      return if sendOk then Success else Pending, message;
    }

    method OweNeutral(owed: bool)
      modifies this`neutralPending, this`requested
      ensures State() == old(State()).(neutralPending := owed, requested := owed || old(requested))
    {
      neutralPending := owed;
      if owed {
        requested := true;
      }
    }

    method Stop(now: nat)
      requires Valid()
      modifies this, scheduler`running, scheduler`cid, replies, replies.items
      ensures Valid() && State() == Step(old(State()), EvStop(now))
    {
      Quieten();
      Forget(now);
      replies.Init();
      scheduler.Stop();
    }

    method Quieten()
      modifies this`running, this`timerPending, this`canSendPending, this`neutralPending, this`holdoffUntil
      ensures State() == old(State()).(running := false, timerPending := false, canSendPending := false,
                                       neutralPending := false, holdoffUntil := 0)
    {
      timerPending, canSendPending, neutralPending, holdoffUntil, running := false, false, false, 0, false;
    }

    method Forget(now: nat)
      modifies this`clock, this`accepted, this`delivered
      ensures State() == old(State()).(clock := now, line := old(LineState()).(accepted := [], delivered := []))
    {
      clock, accepted, delivered := now, [], [];
    }
  }

  /** The bytes a handler hands to the sender, if it calls it. */
  function Emitted(p: Pump, e: Event): Option<seq<U8>> {
    if Decide(p, e).Transmission? then Some(Message(p.cfg.options, EventSend(p, e).content)) else None
  }

  /** A full report is sent as it is built. */
  lemma FullIsNoReply(state: ControllerState.State, o: InputReport.ReportOptions)
    ensures var r := InputReport.FullReport(state, o); |r| > 0 && r[0] != InputReport.REPLY_ID
  {
    InputReport.FullReportFields(state, o, 0);
  }

  /** A can-send event itself moves the clock and uses up the request. */
  lemma TakenNoteOf(p: Pump, now: nat, sendOk: bool, state: ControllerState.State)
    ensures var e, noted := EvCanSend(now, sendOk, state), p.(clock := now, requested := false);
            && Step(noted, e) == Step(p, e) && Returned(noted, e) == Returned(p, e)
            && Emitted(noted, e) == Emitted(p, e) && Noticed(noted, e) == Noticed(p, e)
  {
  }
}
