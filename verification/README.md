# swbt-daemon: a verified model

swbt-daemon lets local IPC clients drive a Bluetooth HID controller. It is a set of interlocking
state machines between a line-based JSON socket, an exclusive lease on the controller state, and a
report pump that sends that state to the host. This project models those machines in Dafny and
proves what holds in every run, whatever the sockets, timers, ports, threads and callers do.

Each machine is given twice. A class has the fields and methods of the source, with the outcomes of
ports (does the send succeed, what does the clock read, which bytes have arrived) as parameters. A
step function on values specifies it: every method ensures that the object's new value is the step
function of its old one. The theorems are about all sequences of steps, and say what a step function
does in terms of the events, the answers and the bytes, not of the function. The text formats are
functions, with the source's scanning and copying loops as methods proved against them.

| files | subject |
|---|---|
| `ControllerState`, `InputReport` | the controller state and the packed 0x30 and 0x21 reports |
| `ReplyQueue`, `Scheduler`, `ReportPump`, `PumpProperties`, `PumpTiming`, `TimerAdapter` | the input-report pump |
| `Domain`, `DomainHistory`, `DomainObject`, `Control` | the lease, the domain object, the control surface |
| `DomainPrograms`, `SpinLock` | the domain operations statement by statement, and threads running them under the lock |
| `SafetyChain`, `ConnectionSafety` | the domain and the pump together, and the IPC runner with them |
| `Shutdown`, `ShutdownPaths`, `ProductionRunner`, `ShutdownPump` | the shutdown protocol, and the protocol with the pump |
| `LineFraming`, `IpcSession`, `IpcHistory`, `IpcRunner`, `IpcStream` | byte stream, connection, IPC runner, and what a stream's lines do through them |
| `JsonScanner`, `JsonText`, `JsonFields`, `JsonCommand`, `JsonDecoding`, `ProtocolRoundTrip` | the JSON protocol |
| `EndToEnd`, `ClientLines`, `Conversation` | the client's lines and whole conversations, from its printer to the report |
| `Spi`, `SpiSeed`, `SeededDevice`, `Dispatcher` | the flash image, its seeding, and the subcommands that read it |
| `Lifecycle`, `LifecycleStatus`, `DaemonProcess` | starting and stopping process, host and device |

`dafny verify dfyconfig.toml` checks everything.

## Assumptions

- Threads interleave between any two accesses to a field of the domain (the instructions of
  `DomainPrograms.Text`), under sequential consistency.
- The millisecond clock is monotone and below its 32-bit wrap; a timer fires only while armed and
  never early; starting the adapter re-arms its one timer.
- 64-bit counters and sequence numbers do not wrap, and IPC client ids stay below `UINT32_MAX`, the
  id of the direct caller.
- Direct control calls come from one thread at a time; the main thread's start and stop calls are not
  interleaved with direct calls.
- Null pointers, which the source answers with invalid-argument results, do not occur, except where
  they are part of the data (SPI entries, subcommand payloads).

## What is false of the code, and exactly when

- Exit is not always triggered once: a disconnect port that reports the close before it returns and
  then fails triggers it twice (`Shutdown.ExitsTwice`). It is triggered at most once exactly unless that
  happens (`Shutdown.ExitsOnceIff`).
- Queued replies do not always have a can-send request outstanding: a can-send event that finds one
  queued and either fails to send it, or spends itself on a pending neutral, leaves it without one
  (`PumpProperties.RepliesCanStrand`). In every run, pending work is without a request exactly if one
  was lost in that way and not regained since (`PumpProperties.WorkWaitsIff`); in runs without a
  failing send it never happens.
- The pump does not always have something pending: one failed periodic report stalls it
  (`PumpProperties.PumpCanStall`), and it stands still exactly until a restart, a sent reply or a
  delivered pending neutral (`PumpProperties.OnePendingUnlessStalled`, `PumpProperties.OnlyTheseRearm`).
- The neutral report the shutdown asks for has not always gone out when the disconnect is requested:
  exactly if it had been left pending and the can-send event that ends the wait fails, or comes after a
  connection was opened again, it has not (`ShutdownPump.UrgentBeforeDisconnect`). A periodic report
  may still have shown the neutral state in the meantime; no message that shows it has gone out since
  the request exactly if, besides that, no periodic report did (`ShutdownPump.NeutralBeforeDisconnect`).
  Both cases have a run with no such message (`ShutdownPump.FailingDropsTheNeutral`,
  `ShutdownPump.ReopeningDropsTheNeutral`).
- A line served by the untimed serve call is no heartbeat, so its client can be timed out right after
  it (`IpcSession.UntimedServeIsNoHeartbeat`). For lines served by timed polls the rule holds.
- A submission can be answered as accepted although it was turned down: exactly if its sender owns the
  lease and its sequence is older than the last accepted one (`IpcSession.StaleIsAnsweredAsAccepted`,
  `IpcSession.StaleSubmission`).

## Model

| member | source | states |
|---|---|---|
| DomainPrograms.ProgramsAreWhole | swbt/domain/domain.c:104-352 | every operation, as a program that touches one shared field at a time and has an unlock and a return of its own on every path, computes when left alone the whole operation, whatever its variables held before, and unlocks exactly once on every path |
| SpinLock.RunsLinearize | swbt/support/spin_lock.h:15-25 | in every interleaving of any number of threads, field by field, one thread holds the lock at a time, the lock is taken exactly while one does, and every returned call took effect at a place of its own in lock order, after every call that had returned when it began, with the sequential answer |
| SpinLock.NobodyReturnsHolding | swbt/domain/domain.c:104-352 | in every run a call ends only after its thread has released the lock |
| SpinLock.EveryPathReleases | swbt/domain/domain.c:104-352 | from any reachable machine the holding thread, given its turns, releases the lock and returns within a fixed number of them, on whichever path it is, and takes effect once |
| SpinLock.ConcurrentReadsAreWhole | swbt/domain/domain.c:192-203 | a state read field by field by any thread, while others store theirs field by field, is the last accepted submission of the tenure in progress at its place in the order, or neutral, never a mixture; half way through the stores a mixture is there (`DomainPrograms.HalfWayIsMixed`), so this is the lock's doing |
| DomainModel.StateIsFoldOfHistory | swbt/domain/domain.c:104-190 | in every history the state is the last accepted submission of the current tenure or neutral, and owner, sequence and state are cleared when nobody owns the lease |
| DomainModel.SequencesNeverDecrease | swbt/domain/domain.c:126-136 | accepted sequence numbers never decrease within a tenure |
| DomainModel.AcceptedIff | swbt/domain/domain.c:116-155 | a submission is accepted exactly if its sender owns the lease and it is not older than the last accepted one |
| DomainHistory.AnswersAreTold | swbt/domain/domain.c:104-352 | in every history every operation is answered as the operations before it say: an acquire succeeds for the owner or the first comer, a submission is accepted, stale or refused, a release is refused exactly to a client that is not the owner, reads return what was stored last, a tick is refused exactly if time went back |
| DomainHistory.StatusIsTold | swbt/domain/domain.c:229-352 | in every history daemon and hardware status, rumble and player lights are what the last operations on each of them say, and the flash image is never changed |
| DomainModel.MetricsAddUp | swbt/support/metrics.c:20-73 | every submission is counted once, as accepted or rejected; the tick counters are the numbers of recorded ticks, of those whose send worked and of those whose send failed, of the intervals between them, with their sum, average and maximum |
| DomainObject.LeaseObject.Acquire | swbt/domain/lease.c:27-39 | busy exactly if someone else owns the lease; otherwise the client does, with the sequence kept |
| DomainObject.LeaseObject.AcceptSequence | swbt/domain/lease.c:41-51 | stores the sequence exactly for the owner |
| DomainObject.LeaseObject.Release | swbt/domain/lease.c:53-61 | frees the lease exactly for the owner |
| DomainObject.LeaseObject.RevokeIfOwner | swbt/domain/lease.c:63-70 | frees the lease exactly if the client owns it, and says so |
| DomainObject.App.Acquire | swbt/domain/domain.c:104-114 | the locked operation is the acquire step of the domain and gives the lock back |
| DomainObject.App.SetState | swbt/domain/domain.c:116-155 | the locked operation is the submit step, with rejected and accepted submissions counted |
| DomainObject.App.Revoke | swbt/domain/domain.c:157-190 | the locked operation is the revoke step for every reason, including an unknown one |
| DomainObject.App.ReadControllerState | swbt/domain/domain.c:192-203 | returns the stored state and changes nothing |
| DomainObject.App.ReadStatus | swbt/domain/domain.c:205-227 | returns one consistent copy and changes nothing |
| DomainObject.App.RecordTick | swbt/domain/domain.c:281-295 | the counter updates one after the other are the tick step, refused without effect if time went back |
| DomainObject.App.RecordRumble | swbt/domain/domain.c:308-319 | stores the rumble bytes, the time and the flag |
| DomainObject.App.RecordRejected | swbt/domain/domain.c:297-306 | counts one rejected submission |
| DomainObject.App.SetDaemonStatus | swbt/domain/domain.c:229-240 | replaces the daemon status and nothing else |
| DomainObject.App.SetDaemonLifecycle | swbt/domain/domain.c:242-253 | replaces the lifecycle and nothing else |
| DomainObject.App.SetHardwareApproval | swbt/domain/domain.c:255-266 | replaces the approval and nothing else |
| DomainObject.App.SetHardwareStatus | swbt/domain/domain.c:268-279 | replaces the hardware status and nothing else |
| DomainObject.App.HandleOutputReport | swbt/domain/domain.c:321-352 | stores the rumble data, then dispatches; only a reply counts as success |
| Control.Surface.SubmitClientState | swbt/control/control.c:100-113 | in force afterwards exactly for a non-stale submission of the owner; the sender is told only whether it owns the lease |
| Control.Surface.SubmitState | swbt/control/control.c:115-134 | busy without effect, or acquires and submits under the direct id with its own next sequence number |
| Control.DirectIsNeverStale | swbt/control/control.c:115-134 | with any operations of others in between, a direct submission that still has the lease is stored, never stale; it is refused exactly if the lease was taken away |
| SafetyChain.ReportsShowTheOwner | swbt/runtime/host.c:13-22 | in every run a periodic report whose body is not the neutral one was made while some client held the lease, and its body is the encoding of that client's last accepted submission |
| SafetyChain.NeutralOnceVacated | swbt/btstack_bridge/input_report_timer_adapter.c:385-387 | with no accepted submission in the tenure in progress, or no owner, the periodic report is neutral |
| SafetyChain.AttemptsAreCounted | swbt/daemon/btstack_report_timer_bridge.c:40-56 | in every run the ticks the domain has recorded are exactly the pump's periodic attempts, over all starts, with their times and outcomes, so its counters are theirs |
| ConnectionSafety.LostConnectionsGoNeutral | swbt/daemon/ipc_runner.c:173-261 | in every run of IPC runner and pump together, every periodic report made after a connection was lost by hang-up, over-long line, silence or stop, and before another client's submission is accepted, shows the neutral state, unless a direct caller holds the lease when its state is read |
| SafetyChain.BodyIgnoresStamp | swbt/switch/switch_report.c:38-75 | two reports of one state differ in the timer byte only |
| ReportPump.InvRun | swbt/btstack_bridge/input_report_timer_adapter.c:285-458 | every reachable pump satisfies the invariant on flags, deadlines, timer bytes, holdoff, pending neutral and replies |
| ReportPump.DelayMs | swbt/btstack_bridge/input_report_timer_adapter.c:10-18 | the least number of ms that reaches the deadline, cut at 32 bits |
| PumpProperties.OnePendingUnlessStalled | swbt/btstack_bridge/input_report_timer_adapter.c:313-399 | timer and can-send wait are never both pending; while running exactly one is, unless the last report that matters for arming was a failed periodic one |
| PumpProperties.TicksAreDue | swbt/btstack_bridge/input_report_timer_adapter.c:84-108 | every tick taken up is due: neither holdoff reschedule nor the not-due result ever happens |
| PumpProperties.OnlyTheseRearm | swbt/btstack_bridge/input_report_timer_adapter.c:333-399 | after a failed periodic report exactly a start, a sent reply or a delivered pending neutral re-arms |
| PumpProperties.PumpCanStall | swbt/btstack_bridge/input_report_timer_adapter.c:385-399 | a run that ends with the pump running and nothing pending, after one failed periodic report |
| PumpProperties.AttemptsNeverEarly | swbt/btstack_bridge/input_report_scheduler.c:41-53 | the n-th periodic attempt after a start at s is not before s + n periods |
| PumpProperties.AttemptsNeverBurst | swbt/btstack_bridge/input_report_scheduler.c:9-15 | any m + 1 consecutive attempts span more than m - 1 periods |
| PumpProperties.AttemptsDriftIff | swbt/btstack_bridge/input_report_scheduler.c:74-106 | the deadlines are exactly s + k periods as long as, and only as long as, every attempt is less than one period late |
| PumpProperties.TimerBytesAreConsecutive | swbt/btstack_bridge/input_report_timer_adapter.c:128-173 | the k-th message sent with the shared timer byte since a start carries (initial + k) mod 256; failed sends use up no value |
| PumpTiming.HoldoffIsTold | swbt/btstack_bridge/input_report_timer_adapter.c:333-399 | in every run the holdoff is told by the sender calls alone: 300 ms behind a reply that went out, ended at once by the next periodic report or pending neutral that goes out; a stopped pump holds nothing off |
| PumpTiming.TimerIsTold | swbt/btstack_bridge/input_report_timer_adapter.c:84-96 | an armed timer is set to the first ms, not before the arming, that reaches holdoff and deadline, neither earlier nor later |
| PumpTiming.PromptAttempts | swbt/btstack_bridge/input_report_timer_adapter.c:313-399 | if every due event comes at its ms, every periodic attempt is made at exactly the first ms that reaches the holdoff of the replies and the deadline of the attempts before it |
| PumpTiming.PromptAttemptsKeepTheGrid | swbt/btstack_bridge/input_report_scheduler.c:74-106 | then, with periods of at least a ms and without replies, attempt n is less than a ms behind start + n periods |
| PumpTiming.ReportsAreAddressed | swbt/btstack_bridge/input_report_timer_adapter.c:285-311 | attempts are counted from the last start, and all its periodic and neutral reports go to its connection |
| PumpTiming.MessageOrder | swbt/btstack_bridge/input_report_timer_adapter.c:333-399 | in every run a can-send event sends the owed neutral, else the oldest undelivered reply, else the report that is waited for, else nothing; an urgent neutral is sent at once; nothing else sends |
| PumpTiming.NoticesAreAttempts | swbt/btstack_bridge/input_report_timer_adapter.c:66-82 | the observer is told of exactly the periodic attempts, with their times and outcomes |
| PumpTiming.RequestsAreTold | swbt/btstack_bridge/input_report_timer_adapter.c:313-441 | in every run a can-send event is asked for by the timer, a reply taken on, a failed neutral and a sent reply with another behind it, and by nothing else |
| PumpTiming.ResultsAreHonest | swbt/btstack_bridge/input_report_timer_adapter.c:313-441 | in every run success is reported exactly if the message went out, the reply of 1 to 50 bytes was taken on as one of at most four, or the can-send event was asked for; a stopped pump says so; a failed urgent neutral is reported as pending and stays owed |
| PumpProperties.RepliesHoldReportsOff | swbt/btstack_bridge/input_report_timer_adapter.c:98-108 | no periodic report less than 300 ms after a sent reply unless a pending neutral was delivered in between |
| PumpProperties.NeutralGoesFirst | swbt/btstack_bridge/input_report_timer_adapter.c:423-441 | after an urgent neutral could not be sent, the next message that goes out is the report of the neutral state and reads back as neutral |
| PumpProperties.RepliesInOrder | swbt/btstack_bridge/input_report_timer_adapter.c:356-374 | accepted replies are the sent ones, byte for byte and in order, followed by the ring |
| PumpProperties.RequestLostIff | swbt/btstack_bridge/input_report_timer_adapter.c:333-399 | the exact events that leave work that had a request without one |
| PumpProperties.RequestRegainedIff | swbt/btstack_bridge/input_report_timer_adapter.c:285-441 | the exact events that give work its request back, or leave no work |
| PumpProperties.WorkWaitsIff | swbt/btstack_bridge/input_report_timer_adapter.c:285-441 | in every run pending work is without a request exactly if one was lost and not regained since |
| PumpProperties.RepliesCanStrand | swbt/btstack_bridge/input_report_timer_adapter.c:356-374 | a run that ends with a queued reply and no request, after one failed reply |
| PumpProperties.WorkIsRequested | swbt/btstack_bridge/input_report_timer_adapter.c:401-421 | if no send fails, pending work always has a can-send request outstanding |
| PumpProperties.Drain | swbt/btstack_bridge/input_report_timer_adapter.c:356-374 | n can-send events drain n queued replies in order |
| Scheduler.NeverEarly | swbt/btstack_bridge/input_report_scheduler.c:9-15 | a list of due ticks is never ahead of the grid |
| Scheduler.NoBurst | swbt/btstack_bridge/input_report_scheduler.c:9-15 | no catching up in bursts after a late tick |
| Scheduler.NoDriftIffTimely | swbt/btstack_bridge/input_report_scheduler.c:9-15 | on the grid exactly while no tick is a whole period late |
| Scheduler.GridRestartsIfLate | swbt/btstack_bridge/input_report_scheduler.c:9-15 | after an attempt a whole period late the next deadline is one period behind it, and whole periods from there on |
| Scheduler.ReportScheduler.Tick | swbt/btstack_bridge/input_report_scheduler.c:74-106 | not due without effect; otherwise builds the report, advances the deadline, and the timer byte only on success |
| ReplyQueue.Queue.Enqueue | swbt/btstack_bridge/subcommand_reply_queue.c:34-59 | appends a reply of legal size to the ring's contents, refused without effect if full |
| ReplyQueue.Queue.SendNext | swbt/btstack_bridge/subcommand_reply_queue.c:61-82 | hands out the head and removes it exactly if the send succeeds |
| TimerAdapter.Adapter.Start | swbt/btstack_bridge/input_report_timer_adapter.c:285-311 | is the pump's start step |
| TimerAdapter.Adapter.OnTimer | swbt/btstack_bridge/input_report_timer_adapter.c:313-331 | is the pump's timer step |
| TimerAdapter.Adapter.OnCanSendNow | swbt/btstack_bridge/input_report_timer_adapter.c:333-399 | is the pump's can-send step, with the message built byte for byte and the observer told of a periodic attempt and its outcome, and of nothing else |
| TimerAdapter.Adapter.EnqueueSubcommandReply | swbt/btstack_bridge/input_report_timer_adapter.c:401-421 | is the pump's enqueue step |
| TimerAdapter.Adapter.SendNeutralNow | swbt/btstack_bridge/input_report_timer_adapter.c:423-441 | is the pump's urgent-neutral step |
| TimerAdapter.Adapter.Stop | swbt/btstack_bridge/input_report_timer_adapter.c:443-458 | is the pump's stop step |
| Shutdown.OneToken | swbt/daemon/shutdown_sequence.c:55-93 | after a request exactly one of posting, callback queued, neutral pending, disconnect pending and exited holds, before it none; a pending disconnect has its timer armed; power off runs once per power on |
| Shutdown.ExitStep | swbt/daemon/production_runner.c:173-200 | the exit happens with the report timer stopped and the power off |
| Shutdown.ExitsOnceIff | swbt/daemon/production_runner.c:173-200 | in every run the exit is triggered at most once exactly unless a disconnect call closes and then fails |
| Shutdown.ExitsTwice | swbt/daemon/production_runner.c:173-200 | a run with two exits |
| Shutdown.FinishStartsClean | swbt/daemon/production_runner.c:173-200 | finish is never entered with a disconnect pending, so its early return is dead |
| ShutdownPaths.DisconnectLeadsTo | swbt/daemon/production_runner.c:173-200 | in every run a disconnect call ends in the exit, with the report timer stopped and the power off, exactly if it failed or the connection closed at once; otherwise the disconnect is pending with its timer armed, the reports running and the power on |
| ShutdownPaths.EveryFlagIsTold | swbt/daemon/btstack_hid_session.c:60-122 | in every run each event sets and clears exactly the flags it should: the five places of the request, both timers, power and phase |
| ShutdownPaths.EventsTell | swbt/daemon/production_runner.c:57-64 | in every run a failed power-on or installation keeps the loop from running, after a failed power-on the power is never on, and a request has been made exactly if there was an exchange |
| Shutdown.TokenMovesOn | swbt/daemon/btstack_hid_session.c:82-122 | the token never moves back; the callback, a can-send or close event, and at the latest the timeout move it on to the exit |
| ShutdownPump.UrgentBeforeDisconnect | swbt/daemon/shutdown_sequence.c:55-78 | in every run of protocol and pump together, when the disconnect is requested the neutral report the protocol asked for has gone out, exactly unless it was left pending and the can-send event that ends the wait fails or comes after a reopened connection |
| ShutdownPump.NeutralBeforeDisconnect | swbt/daemon/shutdown_sequence.c:55-78 | then no message whose content is the neutral state, of whatever kind, has gone out since the request exactly if that can-send event fails or comes after a reopened connection and no periodic report of the neutral state has gone out either |
| ShutdownPump.SentIsNeutral | swbt/btstack_bridge/input_report_timer_adapter.c:154-173 | every message counted as neutral, by kind or by content, reads back as the neutral state |
| ShutdownPump.FailingDropsTheNeutral | swbt/daemon/btstack_hid_session.c:82-101 | a run in which the pending report fails and the disconnect is requested with no neutral message sent |
| ShutdownPump.ReopeningDropsTheNeutral | swbt/daemon/btstack_hid_session.c:60-101 | a run in which a reopened connection makes the protocol go on to the disconnect with no neutral message sent |
| ShutdownPump.PumpServesTheConnection | swbt/daemon/btstack_hid_session.c:60-80 | in every run of protocol and pump the running pump serves the connection last opened |
| ProductionRunner.Backend.FinishShutdown | swbt/daemon/production_runner.c:173-200 | is the finish step, also when the disconnect call re-enters it through the close handler |
| ProductionRunner.Backend.HandleClosed | swbt/daemon/btstack_hid_session.c:103-122 | is the close step |
| ProductionRunner.Backend.HandleCanSendNow | swbt/daemon/btstack_hid_session.c:82-101 | is the can-send step |
| ProductionRunner.Backend.HandleOpened | swbt/daemon/btstack_hid_session.c:60-80 | is the opened step |
| ProductionRunner.Backend.DisconnectTimeout | swbt/daemon/production_runner.c:138-154 | is the timeout step |
| ProductionRunner.Backend.OnMainThread | swbt/daemon/shutdown_sequence.c:55-78 | is the callback step |
| ProductionRunner.Backend.RequestExchange | swbt/daemon/shutdown_sequence.c:80-93 | only the first request goes on to post |
| ProductionRunner.Backend.RequestPost | swbt/daemon/shutdown_sequence.c:87-92 | is the post step: the callback is queued |
| ProductionRunner.Backend.SwitchOn | swbt/daemon/production_runner.c:57-64 | is the power-on step with the flags prepared |
| LineFraming.SplitIsExact | swbt/ipc/ipc_server.c:381-439 | the pieces of a byte string are lines that join up to it, and the rest has no newline |
| LineFraming.LinesAreThePieces | swbt/ipc/ipc_server.c:381-439 | however the stream is split across polls, the lines delivered are its newline-terminated pieces in order with the rest in the buffer, which never overflows; too-long exactly if a piece has no newline in its first 8192 bytes and another byte arrives |
| LineFraming.SplittingIsIrrelevant | swbt/ipc/ipc_server.c:381-439 | two schedules of polls that have read equally far have delivered the same |
| LineFraming.PollsKeepUp | swbt/ipc/ipc_server.c:381-439 | a poll reads on until it has a line, an error or nothing left |
| LineFraming.Connection.ReadInto | swbt/ipc/ipc_server.c:381-439 | the receive loop over the 8193-byte buffers is the read step, with the line copied and terminated |
| IpcSession.OwnersAreConnected | swbt/daemon/ipc_runner.c:124-261 | in every run a lease held under an IPC id means a live connection with that id, and a free lease means a neutral controller |
| IpcSession.LossIsSafe | swbt/ipc/ipc_server.c:441-523 | exactly a broken or over-long read, a heartbeat timeout or a stop ends a connection, and then no IPC client owns the lease and, without a direct owner, the controller is neutral |
| IpcSession.StopIsSafe | swbt/daemon/ipc_runner.c:240-261 | stopping leaves no IPC owner; without a connection it takes the lease from a direct caller too |
| IpcSession.HeartbeatMeansSilence | swbt/ipc/ipc_server.c:501-523 | a heartbeat revocation means that no timed poll served a line in the preceding timeout |
| IpcSession.TimeoutIff | swbt/daemon/ipc_runner.c:193-234 | an idle poll ends the connection exactly if heartbeats are on and the timeout has passed since the last line served by a timed poll or, without one, since the accept |
| IpcSession.ClientIdsNeverReturn | swbt/ipc/ipc_server.c:337-370 | no client id is used for a second connection |
| IpcSession.UntimedServeIsNoHeartbeat | swbt/daemon/ipc_runner.c:153-171 | a run in which an untimed serve does not count as a heartbeat |
| IpcHistory.RunnerIsTold | swbt/daemon/ipc_runner.c:77-261 | in every run, from the events alone: whether the runner runs, the number of the present client, counted from 1 in order of acceptance, and that it stays until it hangs up, sends an over-long line, is stopped, or has been silent for the timeout given to the start |
| IpcHistory.DomainIsReplayed | swbt/ipc/ipc_adapter.c:119-238 | in every run the domain is the replay of the operations its events come down to, so the controller shows the owner's last accepted submission or neutral |
| IpcHistory.ReleaseMeans | swbt/ipc/ipc_adapter.c:151-172 | a release is answered as released exactly if the owner names its own id, and leaves the lease free and the controller neutral; any other is refused and changes nothing |
| IpcHistory.AcquireMeans | swbt/ipc/ipc_adapter.c:133-150 | an acquire is answered as acquired exactly if the client owns the lease afterwards, which is unless another one owned it; nothing else changes |
| IpcHistory.SubmitMeans | swbt/ipc/ipc_adapter.c:173-196 | a submission is stored and counted exactly for an owner that names itself and is not behind its last number; every other one is counted as rejected and changes nothing else; the answer tells whether the sender is the owner |
| IpcHistory.AskingMeans | swbt/ipc/ipc_adapter.c:129-132 | hello and status requests change nothing, and the status is what the domain holds |
| IpcHistory.ReleasedLeaseIsOpen | swbt/ipc/ipc_adapter.c:133-196 | after a release the next client acquires, starts from neutral and may submit under any number, and the old owner is refused |
| IpcSession.StaleIsAnsweredAsAccepted | swbt/ipc/ipc_adapter.c:173-196 | a submission is answered as accepted although turned down exactly for an owner's older sequence, and then changes neither state nor lease |
| IpcSession.StaleSubmission | swbt/control/control.c:5-18 | a run in which a client is told that an older submission was accepted while the newer one stays in force |
| IpcStream.SessionsAreFolds | swbt/ipc/ipc_server.c:441-488 | for every byte stream and every schedule of polls the domain is what the newline-terminated pieces of the bytes read make of it, decoded and executed in order, and the replies are theirs in order; a lost connection adds the client's revocation, a disconnect for an over-long piece or a broken socket and a heartbeat timeout otherwise |
| IpcStream.EmptyPollMeans | swbt/ipc/ipc_server.c:441-523 | a poll that finds no bytes delivers nothing, and ends the connection if the socket is broken or, otherwise, exactly if the client has been silent too long |
| IpcRunner.ExecuteCommand | swbt/ipc/ipc_adapter.c:119-213 | the command's domain operation and response, with the owner id checked against the client |
| IpcRunner.IpcLoop.Start | swbt/daemon/ipc_runner.c:77-111 | is the start step, also when listening fails |
| IpcRunner.IpcLoop.AcceptAt | swbt/daemon/ipc_runner.c:124-147 | is the accept step, with a fresh client id |
| IpcRunner.IpcLoop.ServeAt | swbt/daemon/ipc_runner.c:173-191 | is the serve step, and answers a command with its response |
| IpcRunner.IpcLoop.CheckHeartbeat | swbt/ipc/ipc_server.c:501-523 | drops and revokes exactly on a timeout |
| IpcRunner.IpcLoop.PollOnceAt | swbt/daemon/ipc_runner.c:205-234 | is the poll step |
| IpcRunner.IpcLoop.Stop | swbt/daemon/ipc_runner.c:240-261 | is the stop step |
| JsonScanner.FindIff | swbt/ipc/ipc_json.c:115-174 | on every text and for every key the lookup returns exactly the value behind the first depth-1 string token that equals the key and has a colon behind it, with no backslash in a depth-1 token up to there |
| JsonScanner.TokensAreTheRootTokens | swbt/ipc/ipc_json.c:115-174 | a character-by-character lexer lists exactly the depth-1 string tokens |
| JsonScanner.ScanIsLookup | swbt/ipc/ipc_json.c:115-174 | the scan that jumps over strings agrees with the lexer |
| JsonScanner.CompleteIff | swbt/ipc/ipc_json.c:43-109 | a line is complete exactly if its first significant character opens an object that is closed within 8192 characters, with white space behind it and well-placed commas |
| JsonScanner.FindKey | swbt/ipc/ipc_json.c:115-174 | the lookup loop is the scan |
| JsonScanner.IsCompleteObject | swbt/ipc/ipc_json.c:43-109 | the completeness loop is the check, and its depth never goes negative |
| JsonText.StrtollReadsSigned | swbt/ipc/ipc_json.c:213-234 | a printed 64-bit number with no digit behind it reads back as itself |
| JsonText.StrtoulReadsHex | swbt/ipc/ipc_json.c:295-311 | eight hex digits read back, with no prefix or sign seen in them |
| JsonFields.KeysLead | swbt/ipc/ipc_json.c:115-174 | in every printed object, nested to any depth and with escapes in the objects inside it, a key leads to the value of its first field |
| JsonFields.SoundIsComplete | swbt/ipc/ipc_json.c:43-109 | every printed object of at most 8192 characters, with escapes anywhere, is complete |
| JsonDecoding.DecodesIff | swbt/ipc/ipc_json.c:501-586 | every line and every command: the line is decoded as the command exactly if it is complete, of version 1, has no bad request id, the command's type and, for a release or a submission, its owner id, state and number, a missing number being 0 |
| JsonDecoding.RefusedIff | swbt/ipc/ipc_json.c:501-586 | every line is refused as no JSON, wrong version, unknown command or bad state exactly for that reason, with the request id that is sent back |
| JsonDecoding.StringOfIff | swbt/ipc/ipc_json.c:176-211 | a key has a string exactly if it leads to that string in quotes, of fewer than 96 plain characters, with the end of a value behind it |
| JsonDecoding.NumberOfIff | swbt/ipc/ipc_json.c:213-234 | a key has a number exactly if it leads to white space, a sign or none and digits of that value, within 64 bits, with the end of a value behind it |
| JsonDecoding.StateIff | swbt/ipc/ipc_json.c:369-412 | a line's state is s exactly if s is in range and the object under "state" has the numbers of s |
| JsonDecoding.OwnerIff | swbt/ipc/ipc_json.c:556-572 | a line's owner id is the one its "owner_id" string parses to, and none if it does not |
| JsonDecoding.OwnerTextIff | swbt/ipc/ipc_json.c:295-311 | a text without white space, sign or prefix in front is an owner id exactly if it is eight hex digits, and then it is their value |
| ControllerState.ButtonsDefinedIff | swbt/ipc/ipc_json.c:24-30 | buttons are defined exactly if bits 14, 15 and 24 to 31 are clear |
| JsonCommand.ParsesIff | swbt/ipc/ipc_json.c:369-412 | a state is parsed exactly if all eleven fields are there as numbers and in range, and is then the state of those numbers |
| JsonCommand.OwnerRoundTrip | swbt/ipc/ipc_json.c:274-311 | every owner id survives formatting and parsing, whatever the width of unsigned long |
| JsonCommand.FormatOwnerId | swbt/ipc/ipc_json.c:274-282 | the shift loop writes the eight hex digits and a terminator |
| JsonCommand.CopyString | swbt/ipc/ipc_json.c:176-211 | the copy loop reads exactly the plain strings that fit, refusing escapes, control characters and bad followers |
| ProtocolRoundTrip.ExtractOwner | apps/swbt-debug-client/debug_client.c:551-596 | the client finds the owner id in every acquired response, whatever the request id, and it fits its nine-byte buffer |
| ProtocolRoundTrip.CopyResponseString | apps/swbt-debug-client/debug_client.c:551-596 | the extraction loops over buffers compute the text behind the first pattern |
| ProtocolRoundTrip.LineFits | apps/swbt-debug-client/debug_client.c:455-472 | the printed line fits the request buffer |
| ProtocolRoundTrip.DecodePrinted | apps/swbt-debug-client/debug_client.c:455-472 | the printed set_state line decodes to the same owner, state and sequence |
| ProtocolRoundTrip.SubmissionsArrive | swbt/ipc/ipc_json.c:700-709 | for every client id, request id, in-range state and sequence below 2^63, from the acquired response through the client's line to the decoded command everything is preserved, and the owner check passes |
| EndToEnd.OneLineArrives | swbt/ipc/ipc_server.c:381-439 | a text with one newline at its end is the one line delivered, however it is split |
| EndToEnd.SubmissionsAreShown | swbt/ipc/ipc_adapter.c:215-238 | an owner's current submission, read in any portions, is accepted, and reports then read back as exactly that state |
| ClientLines.AcquireText | apps/swbt-debug-client/debug_client.c:388-393 | the fields of the acquire line print as the client's literal |
| ClientLines.AcquireDecodes | apps/swbt-debug-client/debug_client.c:388-393 | the client's acquire line decodes to an acquire with its request id |
| ClientLines.HelloDecodes | apps/swbt-debug-client/debug_client.c:381-386 | its hello line decodes to a hello |
| ClientLines.GetStatusDecodes | apps/swbt-debug-client/debug_client.c:506-510 | its status line decodes to a status request |
| ClientLines.ReleaseLineDecodes | apps/swbt-debug-client/debug_client.c:512-519 | its release line, with the owner id it was given, decodes to the release of that owner |
| Conversation.LinesSplit | swbt/ipc/ipc_server.c:381-439 | lines of legal length sent one after the other are cut out of the stream as they are |
| Conversation.LinesArePerformed | swbt/ipc/ipc_server.c:441-488 | any list of lines that decode to commands, in any portions and polls, leaves the domain of the commands performed in order, each answered in its turn |
| Conversation.RefusedLineIsHarmless | swbt/ipc/ipc_adapter.c:215-235 | a refused line changes nothing and is answered with its reason and request id |
| Conversation.ConversationsWork | apps/swbt-debug-client/debug_client.c:388-519 | if the lease is free and the first k of the client's acquire, submission and release lines have been read, it has been answered acquired, accepted, released as far as it asked, owns the lease from its first to its last line, and the controller shows its state from the second to the third and is neutral after it; there are such lines for every client (`Conversation.ScriptExists`) |
| InputReport.ReadFullReport | swbt/switch/switch_report.c:38-75 | decoding a report, from any of its three IMU frames, gives the state with sticks clamped to 12 bits and buttons cut to 24 |
| InputReport.AcceptedStatesAreLossless | swbt/ipc/ipc_json.c:357-412 | every state the decoder accepts survives, so equal reports mean equal states |
| InputReport.NeutralReport | swbt/switch/switch_report.c:38-75 | the neutral state's report has no button, both sticks at 0x800 and no sensor values |
| InputReport.ReplySharesPrefix | swbt/switch/switch_subcommand_reply.c:22-70 | bytes 1-12 of a reply are those of the full report, and acknowledgement, id and data are in place |
| InputReport.FullReportFields | swbt/switch/switch_report.c:38-75 | where each field lies |
| InputReport.BuildStandardFullReport | swbt/switch/switch_report.c:38-75 | the in-place writer produces the layout, or an error and no change for a short buffer |
| InputReport.BuildSubcommandReply | swbt/switch/switch_subcommand_reply.c:35-70 | the in-place writer produces the reply layout, or an error |
| Spi.Flash.Write | swbt/switch/switch_spi.c:15-34 | writes exactly the given bytes, or an error and no change |
| Spi.Flash.Read | swbt/switch/switch_spi.c:36-69 | reads the image, with erased bytes above the storage, or an error |
| SpiSeed.ValidateExtraEntries | swbt/switch/switch_spi_seed.c:62-114 | accepts exactly entries that are in bounds, clear of the fixed fields and of each other; otherwise reports the fault of the first entry that is not |
| SpiSeed.ValidateProfile | swbt/switch/switch_spi_seed.c:116-169 | accepts exactly the valid profiles; a bad fixed field is reported before a bad entry |
| SpiSeed.SeedApply | swbt/switch/switch_spi_seed.c:200-263 | an error and an unchanged image, or all blocks written |
| SpiSeed.SeededImage | swbt/switch/switch_spi_seed.c:200-263 | every fixed and extra field reads back exactly and every other byte is untouched |
| SeededDevice.HostReadsTheProfile | swbt/switch/switch_spi.h:11-20 | for every valid profile, extra entries and former image, the host reads the device type at 0x6012, the IMU calibration at 0x6020, the left and right stick calibration at 0x603D and 0x6046, the colours at 0x6050 and the user marks at 0x8010, 0x801B and 0x8026 |
| SeededDevice.TheRestReads | swbt/switch/switch_spi_seed.c:200-263 | the extra entries read back, and every byte outside those addresses and the entries is as it was |
| SeededDevice.EntryOkIff | swbt/switch/switch_spi_seed.c:37-60 | an extra entry is accepted exactly if it has bytes, ends within 64 KiB and holds no byte at those addresses |
| SeededDevice.FaultIff | swbt/switch/switch_spi_seed.c:37-52 | a bad entry is reported as out of range exactly if it has bytes and ends beyond the storage, otherwise as an invalid argument |
| SeededDevice.DevelopmentReads | swbt/switch/switch_spi_seed.c:8-30 | the development profile is valid, and the host reads a Pro Controller with the two sticks' own calibrations |
| SpiSeed.EntryOrderIsIrrelevant | swbt/switch/switch_spi_seed.c:62-114 | permuting the extra entries changes neither validity nor the image |
| Dispatcher.OneRead | swbt/switch/switch_subcommand_dispatcher.c:112-149 | a read subcommand answers with exactly the image bytes behind an echo of the request, or is refused |
| Dispatcher.PiecesReassemble | swbt/switch/switch_subcommand_dispatcher.c:112-149 | any split of a legal range into reads reassembles the image |
| Dispatcher.Answers | swbt/switch/switch_subcommand_dispatcher.c:192-230 | byte by byte, the acknowledgement, id and data of the answer to every subcommand but reads, and which are malformed or unsupported |
| Dispatcher.ReadAnswers | swbt/switch/switch_subcommand_dispatcher.c:112-149 | a read is malformed below five bytes, refused above 29 bytes or past 512 KiB, and answered with the request and the image bytes otherwise |
| Dispatcher.LightsAreSplit | swbt/switch/switch_subcommand_dispatcher.c:151-167 | light by light, the low half of the byte says which are on, the high half which flash, and a light that is on does not flash |
| Dispatcher.LightsChangeIff | swbt/switch/switch_subcommand_dispatcher.c:151-230 | exactly a set-lights subcommand with data changes the lights |
| Dispatcher.RepliesFit | swbt/runtime/host.c:33-58 | every reply is a 50-byte 0x21 report for its subcommand, so the reply ring never refuses it for its size |
| Dispatcher.LightsReadBack | swbt/switch/switch_subcommand_dispatcher.c:151-190 | the player lights read back as set |
| Dispatcher.Switchboard.Handle | swbt/switch/switch_subcommand_dispatcher.c:192-230 | the dispatcher over its buffers is the dispatch function |
| Lifecycle.CallsAreNested | swbt/daemon/process.c:64-130 | for every sequence of calls and any failing step the backend calls are well nested at every moment, and afterwards everything is up or nothing is |
| Lifecycle.StartIsAllOrNothing | swbt/runtime/host.c:117-141 | a failed start leaves nothing up, and a start succeeds exactly if already running or every step succeeds |
| Lifecycle.StopLeavesNothing | swbt/runtime/host.c:164-184 | after a stop nothing is up and the domain is unowned and neutral |
| LifecycleStatus.DomainIsTold | swbt/daemon/process.c:64-130 | in every run a start that works changes the lifecycle only, one that cannot serve changes nothing, a later failure, a stop and a destruction leave the lease free, the controller neutral and the lifecycle stopped, and the neutral call frees the lease and makes the controller neutral |
| LifecycleStatus.LifecycleIsTold | swbt/daemon/process.c:64-130 | in every run the process is up, and its lifecycle running, exactly from a start in which every step worked to the next stop, and never after a destruction |
| DaemonProcess.Bluetooth.Open | swbt/btstack_bridge/device.c:26-54 | is the open step |
| DaemonProcess.Bluetooth.Close | swbt/btstack_bridge/device.c:124-136 | is the close step |
| DaemonProcess.RuntimeHost.Start | swbt/runtime/host.c:117-141 | is the host's start step |
| DaemonProcess.RuntimeHost.SendNeutralNow | swbt/runtime/host.c:143-162 | frees the lease and makes the controller neutral, then reports what became of the urgent report, or success without a report timer |
| DaemonProcess.RuntimeHost.Stop | swbt/runtime/host.c:164-184 | is the host's stop step |
| DaemonProcess.Daemon.Start | swbt/daemon/process.c:64-92 | is the process's start step |
| DaemonProcess.Daemon.SendNeutralNow | swbt/daemon/process.c:94-101 | is the neutral step, refused by a destroyed process |
| DaemonProcess.Daemon.Stop | swbt/daemon/process.c:103-121 | is the process's stop step |
| DaemonProcess.Daemon.Destroy | swbt/daemon/process.c:123-130 | is the process's destroy step |

## Left out

- Real sockets, select, accept, receive and send: the environment chooses readiness, bytes and failures.
- The BTstack, libusb and Windows wrappers, the HID descriptors and the C API structs.
- Configuration files, command lines, diagnostics, crash dumps and console handlers.
- Status, hello, released, state-accepted and error responses as text: format strings without a hard property. `IpcSession.Response` has them as values.
- The active-reconnect timer of the production runner: it does not touch the shutdown flags.
- Weak memory effects and clock, sequence and counter wrap-around.
- Whether a non-neutral report follows the shutdown neutral: IPC is still polled while the disconnect is pending, so the code does not decide it.
- SafetyChain.ReportsShowTheOwner: the lease is held when the report's state is read; an operation of another thread can still land between that read and the send, as in the source.
- DomainPrograms.ProgramsAreWhole: the dispatch copies the state and the lights, works on the copies and the flash image, which nothing writes after start, and stores the lights back; the last tick's time and flag are one field.
- JsonDecoding.RefusedIff: error messages are left out; the refusal code and the request id are kept.
- IpcStream.SessionsAreFolds: replies are values, and the stream is served by timed polls alone, with no direct caller in between.
- SafetyChain.AttemptsAreCounted: the process the observer reports to exists as long as the timer runs.
- JsonDecoding.OwnerTextIff: texts of eight characters with white space, a sign or a 0x prefix in front are taken too, as `JsonText.Strtoul16` reads them; no client prints such an id.
- ProtocolRoundTrip.DecodePrinted: the printed line is built field by field, in the order of the format string, in place of one format string.
- ReportPump.InvRun: every start gives the adapter the same configuration, and bit operations are written as arithmetic.
