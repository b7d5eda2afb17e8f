# A model of the systemd shim

The shim is one daemon between containerd and systemd. It turns the signals systemd sends about
transient units into containerd task state and task events, and it drives units, execs, terminals and
their teardown from containerd's calls. Almost everything in it is concurrent: reactor workers, API
calls, timers and systemd itself act on the same few objects, each holding a lock for one short step.

This project models those steps and proves what holds on every run of them.

| component | modules |
|---|---|
| process lifecycle: phases, merged observation, waiters, exit cascade to execs | `Phases`, `Observations`, `Processes`, `Cascade` |
| event outbox, and what containerd sees of one task | `Outbox`, `TaskStream` |
| work queue, retry policy, and the reactor built on them | `RetryBackoff`, `WorkQueue`, `Reactor`, `ReactorQueue`, `ReactorQuiesce`, `ReactorDelivery`, `UnitEvents` |
| Start and Exec racing Delete | `Teardown`, `ExecRegistry` |
| exit hand-off from the create helper to systemd | `Handoff` |
| tty control protocol | `TtyCodec`, `TtyFramer` |

**How it is built.** Where the source updates an object in place there is a class with the same fields
(`Process`, `ExecProcess`, `InitProcess`, `EventOutbox`, `UnitWorkQueue`, `UnitManager`) whose methods
are proved against functions on values; the tty handler keeps its 256-byte array. The laws are then
proved about those functions. Where the difficulty is interleaving, a module has a state `Sys`, a step
function `Next` over labels, and a `Run` over any sequence of labels; a label whose thread is not at
that point does nothing, so "for every run" is "for every schedule". Everything outside the daemon is an
argument of the step: what a read returns, whether a send or a write succeeds, when a timer fires, when
the workload dies.

**Data.** A unit's status string is a datatype with one constructor per string the code names and
`Other` for the rest. The failure counters are a multiset, an absent key counting zero. A time is an
integer that is positive exactly when it is after `timeZero`. Exit codes, pids and durations have the
width they have in the source, and shifts wrap.

**Where the code does not do what its comments or names suggest**, the model follows the code, and a
lemma says exactly when it does:

- A recorded Service exit can be left unapplied with nothing outstanding and no retry exhausted, when
  the reconcile finds no pid (`ReactorDelivery.SkippedExit`; the exact condition is in
  `ReactorDelivery.ReconcileConsumes`).
- `CopyTo` says it does not regress a terminal status; it does on a terminal observation with a
  non-stopped status (`Processes.StatusRegresses`).
- The state `SetState` returns is not always the one it stored (`Processes.ReturnedCode`); on the update
  that ends the process it is (`Processes.ExitReport`). One run does both: `Processes.SecondObserver`.
- After a failed send the outbox can publish a delete and keep an older exit for ever, as in
  `Outbox.ExitIsStranded`; exactly what, in `Outbox.FlushWithDelete`, and exactly when, in `Outbox.NothingLeft`.
- Registering an exec and then checking the deleting flag is said to leave no exec behind. One is in danger
  from the moment it is found for its own Delete between being listed and being indexed by its Exec call,
  or is listed while another Exec call or an own Delete of the id may still take it off the list
  (`ExecRegistry.EndangeredBy`). Only an exec that was in danger is ever left behind
  (`ExecRegistry.NoExecStranded`), and whenever one is in danger some continuation leaves it behind
  (`ExecRegistry.EndangeredIsLeftBehind`).
- `backoff` says its clamp keeps the shift from overflowing; it can (`RetryBackoff.BackoffWraps`,
  exactly when in `RetryBackoff.BackoffExact`), though not with the shipped policy.
- The exit-time stamp in `applyState` is never reached (asserted in
  `Processes.Process.ApplyObservation`).
- A request for a size beyond a C int is read back as another size, with the right low 16 bits
  (`TtyCodec.RequestRoundTrip`).

## Model

| member | source | states |
|---|---|---|
| Phases.RunningIsForever | phase.go:63-88 | Along any history of accepted moves the rank never falls once the process has run: a claim can be handed back, a run cannot |
| Phases.ExitEnteredOnce | process.go:250-264 | No history enters the exited phase twice |
| Phases.LegalMoves | phase.go:63-88 | The legal moves in closed form: forward but not straight to running, staying but not in a claim, and handing a claim back |
| Observations.MergeKeepsFirsts | state.go:368-414 | Merging any stream of observations yields the first nonzero code, first positive time and first nonzero pid, and is terminal iff some observation was |
| Observations.MergeStatus | state.go:411-413 | The stored status is that of the last observation entitled to set it: one with a status that is terminal, or has a pid and no terminal one before it |
| Observations.MergeNoStatus | state.go:411-413 | With no such observation no status is stored |
| Observations.EndedIff | state.go:337-376 | Which observations count as ended, and what containerd is told for each status word |
| Observations.ServiceExitState | unitsignals.go:120-167 | Whatever a Service signal carries, a recorded exit is terminal and has a pid |
| Observations.ServiceExits | unitsignals.go:120-167 | A signal is an exit iff pid, status and timestamp make sense; it ends that pid at that time with its exit code, or with 128 more than the signal that ended it |
| Processes.StepKeepsConsistent | process.go:363-386 | Every operation keeps: terminal state implies a terminal phase, phase exited implies a terminal state, a stored RUNNING status implies the process was started |
| Processes.PhaseAfter | process.go:255-304 | The phase after each operation, for every phase before it |
| Processes.StepKeeps | state.go:389-414 | No operation loses a known code, time or pid, un-exits a process, leaves a terminal phase or clears the deleting flag |
| Processes.RunKeeps | process.go:255-303 | The same over any run of operations |
| Processes.SettlesOnce | state.go:393-414 | Along a run the code, the time and the pid each change at most once: an earlier value is unset or already the final one |
| Processes.ObserveOutcome | process.go:345-386 | An observation either leaves the phase alone or moves a process that is not over to exited, and then reports it |
| Processes.RunIsSummary | process.go:363-386 | Under any interleaving of starts, observations and deletes the stored state is the summary of the observations |
| Processes.RunningIsStored | process.go:368-374 | A unit reported as running is stored as running once the start has finished, and as created before |
| Processes.RunIsMerge | process.go:363-386 | Under any interleaving the stored state is the merge of the observations, a running one counting as created exactly if it came before the start had finished |
| Processes.RunStatus | state.go:411-413 | So the stored status of any run is that of the last observation entitled to set it |
| Processes.LatestIsRecorded | process.go:306-320 | On any run the recorded Service exit is the latest since the record was last cleared, the first of several at one time |
| Processes.DeletingIff | process.go:405-416 | The deleting flag is up iff some teardown has put it up |
| Processes.DeletedIff | process.go:535-542 | The phase is deleted iff a delete finished |
| Processes.ExitEntry | process.go:351-386 | Phase exited is entered by exactly the first terminal observation, if no delete came first |
| Processes.ExitReport | process.go:363-386 | The update that ends the process returns the code, status and any time it stored |
| Processes.ReturnedCode | process.go:383 | In general the returned code is the stored one iff the two observers do not disagree |
| Processes.StatusRegresses | state.go:411-413 | A stored stopped status is replaced by a non-stopped one iff the observation is terminal and names such a status |
| Processes.SecondObserver | process.go:363-386 | A run after which one more observation is answered with another code than the stored one and turns a stored stopped status into an unknown one |
| Processes.NoLostWakeup | wait.go:93-120 | On every interleaving, a parked unsignalled waiter implies the process is neither exited nor deleted |
| Processes.WhoWakes | process.go:269-275 | Every operation that can move phase or state wakes all waiters, the others none |
| Processes.WaitersLeave | wait.go:93-120 | A waiter leaves iff the process is over; once it is, everyone inside is awake, and it stays over |
| Processes.Process.AdvanceLocked | process.go:255-264 | Rejected, unchanged or changed exactly as the transition table says, with no other field touched |
| Processes.Process.BeginStart | process.go:284-294 | Admits exactly a created process |
| Processes.Process.AbortStart | process.go:296-304 | Hands the claim back; a failed attempt never leaves phase starting |
| Processes.Process.FinishStart | process.go:521-524 | The transition part of finishing a start, and the wake-up |
| Processes.Process.FinishDelete | process.go:535-542 | Ends deleted, and tells exactly the first caller so |
| Processes.Process.ApplyObservation | process.go:363-386 | The merge, the transition and the wake-up in one step; the exit-time stamp is dead code |
| Processes.Process.RecordSystemdExitState | process.go:306-313 | Keeps the later of two recorded exits |
| Processes.Process.ClearRecordedSystemdExitState | process.go:315-320 | Forgets the recorded exit and nothing else |
| Processes.Process.MarkDeleting | process.go:405-409 | Sets the flag and nothing else; wakes nobody |
| Processes.Process.WaitTurn | wait.go:97-120 | Returns iff the process is over, with the stored code, pid, status and exit time, or the zero state if nothing is known; parks otherwise |
| Cascade.ExecSetReports | process.go:721-735 | An exec's observation reports an exit, with the stored code, iff it is terminal and the exec was not over |
| Cascade.ExecSetEvent | process.go:721-735 | The exit reported when an exec ends has the code, the time and the pid of the observation that ended it |
| Cascade.ExecEnds | process.go:562-575 | Undisturbed, the cascade leaves an exec before running or exited; it sends one exit iff it ended the exec |
| Cascade.FileDecides | process.go:562-575 | A terminal exit file ends the exec with its code, pid and time; a running exec without one ends now with 255; one that never ran is left as it is |
| Cascade.EndsAmidOthers | process.go:562-575 | The same whatever other goroutines do to the exec between the steps; they and the cascade together report its end once, and a nonzero reported code is the stored one |
| Cascade.FileDecidesAmidOthers | process.go:562-575 | What other goroutines do meanwhile cannot change what a terminal exit file says |
| Cascade.ForcedAmidOthers | process.go:569-574 | Without a file, and if nobody else sees it exit, a running exec is reported to have ended with 255 |
| Cascade.ReportAfterCascade | state.go:272-300 | Under an exited container an exec in such a state is reported created iff it never ran or only its init helper exited, else exited with its code |
| Cascade.ReportIs | state.go:272-300 | What is reported of an exec in any state, under a running or an exited container |
| Cascade.ExecReportsOnce | process.go:721-735 | Over any run an exec reports exactly one exit if a terminal observation preceded every delete, else none |
| Cascade.ExecProcess.SetState | process.go:721-735 | Refines the exec's step: merge, and report when this update ended it |
| Cascade.ExecProcess.LoadState | state.go:172-184 | Merges the exit file if it can be read |
| Cascade.ExecProcess.End | process.go:562-575 | What the cascade does to one exec: load, leave if never run, else force an exit |
| Cascade.InitProcess.EndExecs | process.go:562-575 | Every exec is ended, each once, and nothing else changes |
| Cascade.InitProcess.ReportExit | process.go:555-587 | Kills leftovers, ends execs, then reports the exit, unless only the init helper exited |
| Cascade.InitProcess.SetState | process.go:552-589 | Cascade and exit report happen on exactly the update that ended the process |
| Outbox.PassProgress | events.go:137-167 | A pass only appends to the stream, keeps the number of events, and publishes one whenever it asks for another pass, so flushing terminates |
| Outbox.SendKeeps | events.go:106-180 | With any send outcomes one Send loses and duplicates nothing, keeps the stream sensible and publishes nothing after a delete |
| Outbox.AllSendsKeep | events.go:106-180 | Over any sends with any outcomes: sent = published + held; exits follow a start, deletes a create, nothing follows a delete |
| Outbox.DeleteIsFinal | events.go:115-121 | After a delete is out no later send publishes anything; it is all held |
| Outbox.SendIsGreedy | events.go:131-167 | When no send fails, a Send equals "publish the oldest publishable event, repeat", and settles |
| Outbox.SendsAreGreedy | events.go:131-167 | The same over any sequence of sends |
| Outbox.HeldIff | events.go:114-129 | After sends that did not fail and before the delete, what is held is exactly exits without any start and deletes without any create |
| Outbox.DeleteGoesOut | events.go:114-129 | After sends that did not fail, the delete is out iff one was sent and the task was introduced |
| Outbox.HeldInOrder | events.go:137-161 | Whatever fails, what is held is held in the order it was sent in |
| Outbox.SendStopsAtFailure | events.go:149-165 | A Send ends with the first attempt that fails; each that succeeds publishes one event |
| Outbox.ExitsPrecedeDelete | events.go:131-167 | When no send fails, every start and exit sent before the first delete is published before it, given a start among them |
| Outbox.FlushWithDelete | events.go:137-167 | From any outbox with one delete held, whatever failed before and fails now: a flush that publishes the delete leaves exactly the exits ahead of every start and what is behind the delete, or, if the create only comes behind the delete, what a second pass cannot publish; with no failure it publishes the delete iff the task is known or is introduced by a held event |
| Outbox.NothingLeft | events.go:137-167 | Nothing is left behind iff the delete comes last and every exit has a start ahead of it, with the exact condition for a create behind the delete |
| Outbox.ExitIsStranded | events.go:104-180 | Create, exit, start and delete sent with only the second attempt failing: the exit stays held for ever, whatever is sent later and however that turns out |
| Outbox.EventOutbox.HandOver | events.go:51-62 | One attempt: delivered and counted, or not delivered |
| Outbox.EventOutbox.Note | events.go:171-180 | What publishing an event makes known |
| Outbox.EventOutbox.FlushPass | events.go:138-161 | The loop over held events, including a failed send, equals one pass |
| Outbox.EventOutbox.Send | events.go:106-167 | Refines Sent for any outcomes; conserves events and keeps the stream sensible |
| TaskStream.RunInv | process.go:255-303 | The invariant of the whole system of creates, starts, observers, deletes and outbox, on every run of an init process or an exec |
| TaskStream.StreamIsSensible | process.go:521-589 | For an init process and for an exec, whatever the interleaving and the send outcomes: at most one event of each kind, exit after start, delete after create, nothing after delete, and a nonzero exit code is the code of the delete and of every later read |
| TaskStream.StreamIsComplete | process.go:521-589 | On every run an event is handed over, or about to be, iff what it reports happened: the create, a finished start, the end of the process, the delete |
| TaskStream.SetsOut | process.go:521-589 | With which content: the pid, and the code, time and pid of the observation that ended the process |
| TaskStream.DeleteReports | process.go:543-549 | The delete carries the stored code, pid and time |
| TaskStream.WhatIsAnnouncedIsStored | process.go:521-530 | The pid a start or create announces is stored, and a process not over is stored as running, or created |
| TaskStream.StreamIsOwn | process.go:700-735 | An exec publishes its adding, start and exit only, and no delete; an init process the events of a task only |
| TaskStream.StartClaim | process.go:284-304 | At most one attempt holds the claim, somebody does while the phase is starting, only a created process admits one, a failed attempt never leaves phase starting |
| RetryBackoff.BackoffIsIdeal | unitworkqueue.go:166-180 | Without room to wrap, the delay is min(base * 2^attempts, max) for every number of attempts |
| RetryBackoff.BackoffMonotone | unitworkqueue.go:87-91 | Then delays never shrink and stay within [base, max] |
| RetryBackoff.ShippedPolicy | unitevents.go:144-148 | 200ms capped at 10s satisfies it |
| RetryBackoff.BackoffExact | unitworkqueue.go:168-180 | For any arguments the exact condition for the delay to be right: with a positive base, iff the shift does not overflow or the wrapped value is not a delay below the cap; with any other, iff the cap is no larger |
| RetryBackoff.BackoffWraps | unitworkqueue.go:168-180 | base = max = 2^62+1 backs off 4 nanoseconds at the third attempt |
| WorkQueue.AddedKeeps | unitworkqueue.go:50-67 | Adding keeps the queue equal to dirty minus processing, without duplicates, makes exactly this name pending unless shut down, and queues it last |
| WorkQueue.TakenKeeps | unitworkqueue.go:121-137 | What is handed out is the first queued name, was pending and in nobody's hands, and is now in processing only |
| WorkQueue.FinishedKeeps | unitworkqueue.go:141-150 | A name added while processed is queued again, last |
| WorkQueue.UnitWorkQueue.Add | unitworkqueue.go:50-67 | Refines the abstract add; the name is pending unless shut down |
| WorkQueue.UnitWorkQueue.AddAfter | unitworkqueue.go:71-85 | Adds now or starts a timer |
| WorkQueue.UnitWorkQueue.Retry | unitworkqueue.go:91-107 | Schedules iff not shut down and fewer retries were counted than the cap, after the ideal backoff, and counts one more |
| WorkQueue.UnitWorkQueue.Forget | unitworkqueue.go:112-116 | Clears the count of this name only |
| WorkQueue.UnitWorkQueue.Get | unitworkqueue.go:121-137 | One turn: the oldest name, shutdown only once drained, or wait |
| WorkQueue.UnitWorkQueue.Done | unitworkqueue.go:141-150 | Releases the name and re-queues it if it was added meanwhile |
| WorkQueue.UnitWorkQueue.ShutDown | unitworkqueue.go:154-164 | Only sets the flag |
| Reactor.OpsRely | process.go:284-409 | Every operation other goroutines perform on a process satisfies the interference the reactor is proved against |
| Reactor.SignalSpec | unitworkqueue.go:65-66 | A signal wakes exactly one parked worker if there is one, and disturbs no other |
| ReactorQueue.RunQInv | unitworkqueue.go:50-164 | The queue and worker-pool invariant on every run of the reactor |
| ReactorQueue.Exclusive | unitworkqueue.go:50-150 | Each pending name is queued once, and no name is reconciled by two workers at once |
| ReactorQueue.StopDrains | unitevents.go:165-178 | When every worker has stopped, queue, dirty and processing are empty |
| ReactorQueue.PendingUntilHandedOut | unitworkqueue.go:139-150 | A pending name, also one added while reconciled, stays pending until handed out again |
| ReactorQueue.FirstComeFirstServed | unitworkqueue.go:65-66 | On every run a name queued behind another is not handed out before it |
| ReactorQuiesce.RunRetries | unitworkqueue.go:87-116 | On every run a retry count never exceeds the cap, and before shutdown is positive only while work for the name is outstanding |
| ReactorQuiesce.RetriesAreCounted | unitworkqueue.go:87-116 | The count of a name is the number of retries granted since a worker was last done with it |
| ReactorQuiesce.RetriedUpToTheCap | unitevents.go:255-273 | On every run a failed reconcile is retried iff there is no shutdown and fewer than five retries were granted since a worker was last done with the name; else it is given up on |
| ReactorQuiesce.AbandonedAfterRetries | unitevents.go:268-273 | A name is only ever given up on when a reconcile failed after the shutdown or after five retries |
| ReactorQuiesce.InternalDecreases | unitevents.go:249-275 | Every step the reactor takes by itself decreases a lexicographic measure, also when Forget resets a count |
| ReactorQuiesce.Quiesces | unitevents.go:249-275 | Once names stop coming in from outside, the steps taken plus the remaining potential never exceed the initial potential, on every schedule |
| ReactorQuiesce.StuckIsDrained | unitworkqueue.go:118-150 | A reactor that cannot move has nothing queued, dirty, processing or on a timer: no worker sleeps through work |
| ReactorQuiesce.EverythingGetsDone | unitevents.go:244-275 | From any reachable state without further adds: boundedly many steps, and where it stops all is drained and every pending name was handed out |
| ReactorDelivery.NoExitIsLost | unitevents.go:218-321 | On every run before shutdown, a tracked unfinished process with a recorded exit has work outstanding, unless since its name was last added its retries ran out or it was passed over without a pid |
| ReactorDelivery.AddedIsFresh | unitevents.go:180-188 | Adding the name takes both excuses away again |
| ReactorDelivery.HeardIsSettled | unitevents.go:218-242 | However the rest is scheduled, what the informer has taken up is added, or its process was found exited |
| ReactorDelivery.HearsIt | unitevents.go:218-242 | A terminal Service signal or an exit signal of a tracked unit is taken up |
| ReactorDelivery.RecordedThenAdded | unitevents.go:229-241 | An exit at least as late is on record before the name is added, and what is added, or resynced, is pending |
| ReactorDelivery.LoadDecides | state.go:151-184 | What loading makes of a process not over: a terminal exit file, or without one a terminal unit, ends it with its code, anything else leaves it going, and it fails iff systemd had to be read and could not be |
| ReactorDelivery.BareFileMeansRunning | state.go:153-156 | A file without a status and with a pid says that an init process runs |
| ReactorDelivery.ReconcileDecides | unitevents.go:292-321 | What a reconcile makes of a process not over, for everything it can find: the first terminal source of exit file, unit, recorded exit and fallback ends it with its code; exactly when it fails |
| ReactorDelivery.ReconcileConsumes | unitevents.go:292-321 | A successful reconcile of a process with a recorded exit leaves it exited iff it already was, its loaded state is terminal, or it has a pid |
| ReactorDelivery.StepsAreReconcile | unitevents.go:292-321 | The worker's single steps from the lookup on, undisturbed, add up to the reference reconcile |
| ReactorDelivery.SkippedExit | unitevents.go:310-318 | A concrete run in which a recorded exit stays unapplied with nothing outstanding, because the pid was 0 |
| UnitEvents.EnqueueIfExit | unitevents.go:218-242 | Records, then queues, exactly the exits of tracked processes not yet exited; all else changes nothing |
| UnitEvents.ExitUpdates | unitevents.go:218-242 | Which updates matter: a Service signal with the four properties of an exit, and a unit that became inactive or failed |
| UnitEvents.ResyncCovers | unitevents.go:180-188 | After a resync every tracked unit is pending, each once, and nothing else changed |
| UnitEvents.Resync | unitevents.go:184-188 | The loop adds every path |
| UnitEvents.ReconcileUnit | unitevents.go:292-321 | Does to the process what the reference reconcile does, with the same verdict, and touches no other |
| UnitEvents.LoadProcess | state.go:151-184 | Exit file first, then systemd for a started init process; an error changes nothing |
| UnitEvents.UnitManager.Add | process.go:48-52 | Keeps every process tracked under its own name only; this one is found under its name and under no other |
| UnitEvents.UnitManager.Delete | process.go:54-57 | Keeps that too; the process is found under no name any more |
| UnitEvents.OneNameEach | process.go:41-46 | No object is indexed under two names |
| UnitEvents.AddIsTrack | process.go:48-52 | Adding an untracked process to the index is the reactor's Track |
| UnitEvents.DeleteIsUntrack | process.go:54-57 | Deleting a process from it is the reactor's Untrack |
| Teardown.RunResponsible | start.go:359-371 | On every run, once a delete has begun, a running unit has somebody who will still stop it and a referenced one somebody who will still release it, unless a kill or a release has failed on it |
| Teardown.NothingStranded | delete.go:131-145 | Once no Start or Delete is in flight, a process some delete was begun for has no running unit but one systemd failed to kill and no referenced one but one it failed to release, and an exec swept with its container no referenced one likewise, whatever creates succeeded or failed ambiguously |
| Teardown.DeletingIff | process.go:392-409 | The flag is up iff some delete, or the sweep of the container's, has put it up |
| Teardown.StartSucceeds | start.go:362-377 | An attempt nobody deletes keeps its unit and ends running, or hands the claim back |
| Teardown.StartIsAbandoned | start.go:229-255 | An attempt that finds the flag tears its unit down and never counts as a start |
| Teardown.DeleteTearsDown | delete.go:131-196 | A delete whose calls work leaves no tie and ends deleted |
| Teardown.NoPinNoReference | unitref.go:80-104 | Without a pin connection no reference is ever taken |
| Teardown.StaysDown | process.go:392-409 | Nothing creates or references a unit for a deleted process again |
| Teardown.DeletedButRunning | delete.go:155-166 | A run in which stop, kill and release fail and all is left behind |
| ExecRegistry.NoExecStranded | create.go:288-310 | Once the container's delete is done and no Exec call and no own Delete of an exec is in flight, it is not in the unit index, unless it was in danger before that delete |
| ExecRegistry.ExecRegisters | create.go:288-310 | An Exec call nothing interferes with registers its exec in both places, one that fails or sees the flag in neither |
| ExecRegistry.EndangeredBy | delete.go:53-62 | The exact steps that put an exec in danger: found for its own Delete between listing and indexing, or listed while another call or own Delete of the id may still take it off the list |
| ExecRegistry.EndangeredStrands | delete.go:261-263 | Whenever an exec is in danger, whoever else is at work on it, some continuation leaves it indexed and unlisted, with nobody left to notice |
| ExecRegistry.EndangeredIsLeftBehind | delete.go:75-90 | And it is then still in the index when the container's delete has finished |
| ExecRegistry.StrandedStays | delete.go:75-90 | An exec indexed and unlisted, with nobody at work on it, stays in the index through any delete of the container, until its id is registered again or a Start of it fails |
| ExecRegistry.ExecLeftBehind | delete.go:53-90 | It happens from the start: a run in which a finished delete leaves any given exec in the index |
| ExecRegistry.NoExecReappears | delete.go:75-90 | Later Exec calls only index an exec that they, or its own Delete, are about to take off again, with the same exception |
| Handoff.HandedOff | create.go:711-797 | Whenever the workload dies: the helper consumed, persisted and announced the status and fails iff the code is nonzero; or it left it on file as running and systemd took the pid while it was alive, unless the barrier failed, and even then it was alive when the helper looked for the last time |
| Handoff.RuncFailure | create.go:739-748 | A runc that fails is on file and announced as an exit of the init helper, and fails the helper iff the code is nonzero |
| Handoff.SameCodeEitherWay | create.go:851-863 | The same end comes out as the same code from the helper and from systemd |
| Handoff.ReapedOnce | create.go:838-865 | The helper consumes the exit status at most once, whatever fails |
| Handoff.StatusDelivered | create.go:773-796 | A dead, collected workload's status is known from exactly one place, unless a barrier failed |
| Handoff.LostWithoutBarrier | create.go:912-957 | A concrete run with a failed barrier in which nobody reports the exit |
| TtyCodec.RequestRoundTrip | pty.go:187-194 | The handler reads every request the client writes, the same size iff it fits a C int, and always the same low 16 bits |
| TtyCodec.ScanReads | pty.c:82-89 | A number is read exactly where one is spelled: white space, perhaps a sign, and all the digits there are |
| TtyCodec.ResponseIs | pty.go:196-209 | What the client makes of every possible line |
| TtyCodec.RequestFits | pty.go:49-53 | For 32-bit sizes a request is at most 24 bytes, within the 32-byte buffer |
| TtyCodec.ResponseRoundTrip | pty.go:196-209 | The client reads success exactly from an accepted request, and from a refusal its message, whole iff it has at most 253 bytes and no trailing line break |
| TtyFramer.HandleConnection | pty.c:108-162 | For any fragmentation of the stream, the outcome is the reference on the whole stream; the buffer is never overrun and no read asks for zero bytes |
| TtyFramer.ServeBuffered | pty.c:135-148 | The inner loop services every complete line in the buffer and leaves the partial one |
| TtyFramer.OneReplyEach | pty.c:78-81 | One reply per line, plus the refusal of a line too long, except where a write fails |
| TtyFramer.StopsAtFailedWrite | pty.c:138-147 | The first reply that cannot be written is the last of all |
| TtyFramer.TooLongIsRefused | pty.c:154-160 | A line too long is the last and is refused as such |
| TtyFramer.SizesAreSet | pty.c:94-105 | The window sizes set are those of the accepted lines, in order |
| TtyFramer.WhatIsAnswered | pty.c:82-106 | A request is accepted, and the size set, iff it is three numbers that ask for a resize and the window-size call succeeded; else it is refused with what went wrong |
| TtyFramer.ReplyMatches | pty.c:82-106 | The i-th reply answers the i-th line |
| TtyFramer.LinesInOrder | pty.c:135-161 | The lines serviced are the newline-separated lines in order, up to the first of 255 bytes or more, which is refused |
| TtyFramer.ResizesArrive | pty.c:82-106 | Every sequence of resizes a client can write is accepted and applied in order when nothing underneath fails |
| TtyFramer.ClientLearnsOutcome | pty.c:69-106 | The client reads success iff the request is a resize and the window size could be set, else the message of what went wrong, from a reply that is one line |

## Left out

- TtyCodec.RequestRoundTrip: beyond a C int the C standard leaves the scanned value undefined; the model saturates at 64 bits and keeps the low 32, as common C libraries do.
- ReactorDelivery.NoExitIsLost: before shutdown only, and with the two exceptions it names; both occur in the code.
- ReactorDelivery.StepsAreReconcile: for a reconcile nobody interferes with; interference is covered by NoExitIsLost.
- Outbox.FlushWithDelete: with one delete held; a task hands its outbox at most one.
- Cascade.InitProcess.EndExecs: the loop on the objects, with nobody else acting; one exec amid other goroutines is Cascade.EndsAmidOthers.
- TtyCodec.ResponseRoundTrip: takes a message without a NUL byte, as every C string is; how the client finds the end of a reply cut to the buffer, which has no newline, is not part of it.
- Handoff.StatusDelivered: says nothing when runc, the pid file, a file write or wait4 fails, since then nobody has the status.
- WorkQueue.UnitWorkQueue.Get: one turn of the wait loop; sleeping and waking are modelled in Reactor.
- Cancelled waits, wall-clock timeouts and the order of wake-ups: no guarantee beyond the above is in the code.
- The overwrite of the reported state by Service.Wait (wait.go:79-81) and the two direct pid writes (start.go:517-519, create.go:560-563), which bypass the merge.
- Service.Create racing Delete, and the retry ladder of startUnit beyond "a retry cleans up its own earlier attempt": the create path has no deleting check.
- Helper runs that do not reap (noReap, private mounts), and a helper without a notification socket, whose barrier returns at once.
- Short writes in write_all, the unframed replies readMsg tolerates, and handling of the pty itself.
- Decoding of D-Bus signals and unit properties, other than serviceExitState; dialling, reconnecting and the watchdog, which appear as arbitrary signals, gaps and resyncs.
- Forwarding of published events to containerd, and its timeout, which appears as an arbitrary send outcome.
- Unit name building, service plumbing, option parsing, logging, tracing, metrics and the benchmark tools.
