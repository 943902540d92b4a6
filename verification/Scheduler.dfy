/** The periodic schedule of input reports: one deadline, advanced at every attempt. */
module Scheduler {
  import opened ControllerState
  import opened Options
  import InputReport

  type Period = p: nat | 0 < p < 0x1_0000_0000 witness 1

  datatype TickResult = Ok | NotDue | Stopped | SendFailed

  function Advance(deadline: nat, period: Period, now: nat): (d: nat)
    ensures d > now && d >= deadline + period
  {
    var next := deadline + period;
    if next <= now then now + period else next
  }

  // ---- Deadlines of whole runs, as a function of the attempt times ----

  /** The deadline in force after attempts at the given times, for a start at `start`. */
  function DeadlineAfter(start: nat, period: Period, ticks: seq<nat>): (d: nat) {
    if ticks == [] then start + period
    else Advance(DeadlineAfter(start, period, ticks[..|ticks| - 1]), period, ticks[|ticks| - 1])
  }

  /** Each attempt was made at or after the deadline in force. */
  predicate AllDue(start: nat, period: Period, ticks: seq<nat>) {
    forall k :: 0 <= k < |ticks| ==> DeadlineAfter(start, period, ticks[..k]) <= ticks[k]
  }

  lemma AllDueSnoc(start: nat, period: Period, ticks: seq<nat>, t: nat)
    requires AllDue(start, period, ticks) && DeadlineAfter(start, period, ticks) <= t
    ensures AllDue(start, period, ticks + [t])
    ensures DeadlineAfter(start, period, ticks + [t]) == Advance(DeadlineAfter(start, period, ticks), period, t)
  {
    var all := ticks + [t];
    assert all[..|ticks|] == ticks;
    forall k | 0 <= k < |all| ensures DeadlineAfter(start, period, all[..k]) <= all[k] {
      if k < |ticks| {
        assert all[..k] == ticks[..k];
      }
    }
  }

  /** Deadlines grow by at least a period per attempt. */
  lemma {:induction false} DeadlineGrowth(start: nat, period: Period, ticks: seq<nat>, i: nat, j: nat)
    requires i <= j <= |ticks|
    ensures DeadlineAfter(start, period, ticks[..i]) + (j - i) * period <= DeadlineAfter(start, period, ticks[..j])
    decreases j
  {
    if i < j {
      DeadlineGrowth(start, period, ticks, i, j - 1);
      assert ticks[..j][..j - 1] == ticks[..j - 1];
      assert (j - i) * period == (j - 1 - i) * period + period;
    }
  }

  /** The n-th attempt, counting from 1, is never before start + n * period. */
  lemma NeverEarly(start: nat, period: Period, ticks: seq<nat>, n: nat)
    requires AllDue(start, period, ticks) && 1 <= n <= |ticks|
    ensures start + n * period <= ticks[n - 1]
  {
    assert DeadlineAfter(start, period, ticks[..n - 1]) <= ticks[n - 1];
    DeadlineFloor(start, period, ticks[..n - 1]);
  }

  lemma {:induction false} DeadlineFloor(start: nat, period: Period, ticks: seq<nat>)
    ensures start + (|ticks| + 1) * period <= DeadlineAfter(start, period, ticks)
    decreases |ticks|
  {
    if ticks != [] {
      DeadlineFloor(start, period, ticks[..|ticks| - 1]);
      MulSucc(|ticks|, period);
    }
  }

  lemma MulSucc(n: nat, period: nat)
    ensures (n + 1) * period == n * period + period
  {
  }

  /** Catching up never bursts: m + 1 consecutive attempts span more than m - 1 periods. */
  lemma NoBurst(start: nat, period: Period, ticks: seq<nat>, i: nat, m: nat)
    requires AllDue(start, period, ticks) && 1 <= m && i + m < |ticks|
    ensures ticks[i + m] - ticks[i] > (m - 1) * period
  {
    assert ticks[..i + 1][..i] == ticks[..i];
    DeadlineGrowth(start, period, ticks, i + 1, i + m);
  }

  /** Attempt k came less than one period after its deadline. */
  predicate Timely(start: nat, period: Period, ticks: seq<nat>, k: nat)
    requires k < |ticks|
  {
    ticks[k] < DeadlineAfter(start, period, ticks[..k]) + period
  }

  predicate OnGrid(start: nat, period: Period, ticks: seq<nat>, k: nat)
    requires k <= |ticks|
  {
    DeadlineAfter(start, period, ticks[..k]) == start + (k + 1) * period
  }

  lemma GridStep(start: nat, period: Period, ticks: seq<nat>, k: nat)
    requires k < |ticks| && OnGrid(start, period, ticks, k)
    ensures Timely(start, period, ticks, k) <==> OnGrid(start, period, ticks, k + 1)
  {
    assert ticks[..k + 1][..k] == ticks[..k];
    assert (k + 2) * period == (k + 1) * period + period;
  }

  lemma {:induction false} TimelyStaysOnGrid(start: nat, period: Period, ticks: seq<nat>, n: nat)
    requires n <= |ticks| && forall k :: 0 <= k < n ==> Timely(start, period, ticks, k)
    ensures OnGrid(start, period, ticks, n)
    decreases n
  {
    if n == 0 {
      assert ticks[..0] == [];
    } else {
      TimelyStaysOnGrid(start, period, ticks, n - 1);
      GridStep(start, period, ticks, n - 1);
    }
  }

  /** The schedule keeps to the grid start + k * period exactly as long as every attempt is
      less than one period late; one later attempt takes it off the grid. */
  lemma NoDriftIffTimely(start: nat, period: Period, ticks: seq<nat>)
    ensures (forall k :: 0 <= k < |ticks| ==> Timely(start, period, ticks, k))
       <==> (forall k :: 0 <= k <= |ticks| ==> OnGrid(start, period, ticks, k))
  {
    if forall k :: 0 <= k < |ticks| ==> Timely(start, period, ticks, k) {
      forall k | 0 <= k <= |ticks| ensures OnGrid(start, period, ticks, k) {
        TimelyStaysOnGrid(start, period, ticks, k);
      }
    }
    if forall k :: 0 <= k <= |ticks| ==> OnGrid(start, period, ticks, k) {
      forall k | 0 <= k < |ticks| ensures Timely(start, period, ticks, k) {
        GridStep(start, period, ticks, k);
      }
    }
  }

  /** Each attempt that is less than a period late moves the deadline on by one period; a later one
      starts a new grid at its own time. So a deadline is always whole periods behind the start or
      the last attempt that was a period late. */
  lemma {:induction false} GridRestartsIfLate(start: nat, period: Period, ticks: seq<nat>, i: nat, n: nat)
    requires i <= n <= |ticks|
    requires i > 0 ==> !Timely(start, period, ticks, i - 1)
    requires forall k :: i <= k < n ==> Timely(start, period, ticks, k)
    ensures DeadlineAfter(start, period, ticks[..n]) ==
            (if i == 0 then start + period else ticks[i - 1] + period) + (n - i) * period
    decreases n
  {
    if n == 0 {
      assert ticks[..0] == [];
    } else {
      assert ticks[..n][..n - 1] == ticks[..n - 1];
      if i < n {
        GridRestartsIfLate(start, period, ticks, i, n - 1);
        assert (n - i) * period == (n - 1 - i) * period + period;
        assert Timely(start, period, ticks, n - 1);
      }
    }
  }

  // ---- The scheduler object ----

  class ReportScheduler {
    const period: Period
    const options: InputReport.ReportOptions
    const scratch: array<U8>
    var cid: U16
    var running: bool
    var nextDeadline: nat
    var timer: U8

    ghost predicate Valid()
      reads this
    {
      scratch.Length == InputReport.FULL_SIZE
    }

    constructor (period: Period, options: InputReport.ReportOptions)
      ensures Valid() && fresh(scratch) && this.period == period && this.options == options
      ensures !running && cid == 0 && nextDeadline == 0 && timer == options.timer
    {
      this.period, this.options := period, options;
      scratch := new U8[InputReport.FULL_SIZE](_ => 0);
      cid, running, nextDeadline, timer := 0, false, 0, options.timer;
    }

    method Start(newCid: U16, now: nat)
      requires Valid()
      modifies this
      ensures Valid() && running && cid == newCid && nextDeadline == now + period && timer == options.timer
    {
      cid, running, nextDeadline, timer := newCid, true, now + period, options.timer;
    }

    method Stop()
      requires Valid()
      modifies this`running, this`cid
      ensures Valid() && !running && cid == 0
    {
      running, cid := false, 0;
    }

    /** Builds a full report with the current timer byte in the scratch buffer. */
    method BuildReport(state: State) returns (report: seq<U8>)
      requires Valid()
      modifies scratch
      ensures Valid() && report == InputReport.FullReport(state, options.(timer := timer))
    {
      var built, written := InputReport.BuildStandardFullReport(state, options.(timer := timer), scratch);
      assert scratch[..] == InputReport.FullReport(state, options.(timer := timer));
      report := scratch[..written];
    }

    /** One periodic attempt. The report handed to the sender, whose outcome is `sendOk`,
        carries the current timer byte; the deadline moves whether or not the send succeeds,
        the timer byte only if it does. */
    method Tick(now: nat, state: State, sendOk: bool) returns (result: TickResult, handed: Option<seq<U8>>)
      requires Valid()
      modifies this`nextDeadline, this`timer, scratch
      ensures Valid()
      ensures result == if !running then Stopped else if now < old(nextDeadline) then NotDue
                        else if sendOk then Ok else SendFailed
      ensures handed == if result in {Stopped, NotDue} then None
                        else Some(InputReport.FullReport(state, options.(timer := old(timer))))
      ensures nextDeadline == if handed.Some? then Advance(old(nextDeadline), period, now) else old(nextDeadline)
      ensures timer == if result == Ok then (old(timer) + 1) % 0x100 else old(timer)
    {
      if !running {
        return Stopped, None;
      }
      if now < nextDeadline {
        return NotDue, None;
      }
      var report := BuildReport(state);
      handed := Some(report);
      nextDeadline := Advance(nextDeadline, period, now);
      if !sendOk {
        return SendFailed, handed;
      }
      timer := (timer + 1) % 0x100;
      return Ok, handed;
    }
  }
}
