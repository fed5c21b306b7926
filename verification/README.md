# Message passing, scheduling, interrupts and event rings, verified

A Dafny model of the parts of this MINIX 3 kernel, and of the GNU Pth library among its
benchmarks, whose correctness spans several functions and whole runs:

- **Message passing** (`kernel/proc.c`, `kernel/system.c`): SEND, SENDNB, RECEIVE, SENDREC, NOTIFY,
  SENDA, the kernel's own sends, and exit, as atomic steps on the process table.
- **Run queues** (`kernel/proc.c`, `kernel/proc.h`, `kernel/system.c`) with the preemption inside
  `enqueue`, and their checker (`kernel/debug.c`).
- **Interrupt hooks** (`kernel/interrupt.c`): ids, active bits and the mask of the controller.
- **Send masks and bitmaps** (`kernel/system.c`, `kernel/proc.c`).
- **Event rings** (`pth_event.c`) and **blocking writes made of short ones** (`pth_high.c`).

Run `dafny verify dfyconfig.toml` to check it all.

## How it is built

Each part has two layers. A value layer says what an operation does to the contents of the tables
(`IpcSpec`, `RunQueue`, `Irq`), and the properties are proved there, over all states and all runs. A
class changes arrays in place with the loops and links of the kernel (`IpcKernel.Kernel`,
`RunQueueTable.ReadyTable`, `RunQueueCheck.Checker`, `IrqTable.Controller`, `SendMask.Masks`,
`EventPool.Pool`, `Writev.View`), and each of its methods is proved to do exactly that to the
contents. `IpcKernel.Kernel.Enter`, `RunQueueTable.ReadyTable.Perform` and
`IrqTable.Controller.Perform` join the layers: whatever is called, the linked table keeps the
invariant.

| modules | content |
|---|---|
| `WaitGraph` | the wait-for graph and the walk of `deadlock()` |
| `Lists` | queues linked through an array |
| `IpcTypes`, `IpcSpec` | the process table and what every call does to it |
| `IpcInv`, `IpcCalls`, `IpcExit`, `IpcLiving` | acyclicity, caller queues, rendezvous, flags; exit |
| `IpcHistory`, `IpcAsync`, `IpcPending`, `IpcSteps` | conservation and order of messages, asynchronous tables |
| `IpcRun`, `IpcTheorems` | runs and the main results |
| `IpcOrder`, `IpcBoxes`, `IpcNotices` | order of delivery and messages given up, message buffers, notifications |
| `IpcAccepts`, `IpcOnce` | which sends are on record, asynchronous messages over many SENDAs |
| `IpcResults`, `IpcReceives`, `IpcSendaExact`, `IpcTables`, `IpcDeaf` | the exact outcome of every call: refusals, sends, receives, asynchronous tables, notifications |
| `IpcKernel`, `StaleLinks`, `IpcStop` | the linked table, and what becomes of its links |
| `SysMap`, `SendMask`, `Words` | bitmaps, send masks, machine words |
| `RunQueue`, `RunQueueTheorems`, `RunQueueExact`, `RunQueueTable`, `RunQueueCheck` | scheduling and the checker |
| `Irq`, `IrqEffects`, `IrqTable` | interrupts |
| `EventRing`, `EventPool` | event rings |
| `Writev` | blocking writes |

The invariant of message passing (`IpcRun.Inv`) is one conjunction, because its parts need each
other: `deadlock()` ends only on an acyclic graph; the graph stays acyclic only because `deadlock()`
is exact; its exception for two processes is harmless only because a queued sender is never one its
receiver would take; and that holds through the middle of a SENDREC only because both of its halves
name the same partner.

A process is named by its slot, which also serves as its endpoint and as the id of its privilege
structure (`include/minix/priv.h:12` gives the static ids). A failed assertion or a panic ends a run.
Message copies, the answers of interrupt handlers and of devices, and clock values are inputs.

## What the proofs found

- A process may RECEIVE from itself. It then waits for itself, and `deadlock()` never returns for
  anybody who gets to it (`IpcTheorems.SelfReceive`, `SelfReceiveHappens`, `WalkIntoSelf`). Nothing else
  breaks the invariant (`IpcTheorems.KeptExactly`); sends to oneself are refused by the send mask.
- `clear_ipc` does not reset `p_q_link` (`kernel/system.c:509`). After an exit, a released sender keeps a
  stale link exactly if a higher slot stood behind it on the queue, and the process that exits exactly if
  it was not last on its own (`IpcKernel.Kernel.ClearEndpoint`). Its next send that blocks fails the
  assertion at `kernel/proc.c:922` (`IpcKernel.Kernel.Enter`, `IpcStop.StaleLinkStops`). Without an exit
  it never fails.
- A running process that `sched_proc` makes less urgent than a waiting one is not preempted
  (`RunQueueTheorems.StepUrgent`, `DemotedRunsOn`, `DemotionHappens`).
- `sched_proc` lets the priority `NR_SCHED_QUEUES` pass (`kernel/system.c:629`), which is no queue
  (`RunQueue.SchedProcMisses`, `SchedProcGoesAstray`); nothing else breaks the run-queue invariant
  (`RunQueue.KeptExactly`).
- `rm_irq_handler` goes by id: called for a hook that is no longer registered it removes the hook that
  has got the id since (`Irq.RemovesItself`, `RemovesAnother`).
- `pth_writev_ev` compares a number of pieces with a size in bytes (`pth_high.c:1038`), so that the
  temporary vector is too small for some requests (`Writev.RoomExact`, `NoRoom`), and the copy made after
  a short write runs over its end (`Writev.WriteVector`).
- When an extra event breaks off a wait after a short write, the bytes already written are not reported,
  although the code means to report partial writes (`pth_high.c:1076-1082`, `Writev.ReportExact`,
  `PartialWriteHidden`).

## Model

| member | source | states |
|---|---|---|
| `WaitGraph.FollowExact` | kernel/proc.c:691-737 | on an acyclic wait-for graph the walk of deadlock() ends, reports a group only if the chain leads back to the caller and of a size that fits the table, and misses such a chain only through the exception for two processes; in every round, also of a walk that returns zero, the processes met and the caller fit the array |
| `WaitGraph.PathsDistinct` | kernel/proc.c:685-737 | the processes on a chain of an acyclic graph are all different |
| `WaitGraph.RoomForCaller` | kernel/proc.c:687-701 | the processes on a chain that misses the caller are fewer than the slots, so the next element of the array exists |
| `WaitGraph.AddEdge` | kernel/proc.c:674-738 | blocking a process on a target from which no chain leads back to it keeps the graph acyclic: the check of deadlock() is enough |
| `WaitGraph.EndlessExact` | kernel/proc.c:691-737 | the bounded walk of the model reports Endless if and only if the loop of deadlock() is still running after every number of rounds |
| `IpcCalls.SendDeadlockExact` | kernel/proc.c:899-903 | called from mini_send, deadlock() returns and is non-zero if and only if the destination waits, through any number of others, for the caller; the group fits the table of processes; the exception for two processes never applies |
| `IpcCalls.ReceiveDeadlockExact` | kernel/proc.c:1060-1071 | the same for mini_receive, also when the caller is already blocked in the send half of SENDREC |
| `IpcRun.StepKeeps` | kernel/proc.c:439-557 | every kernel entry (SEND, SENDNB, RECEIVE, SENDREC, NOTIFY, SENDA, the kernel's own sends and notifications, message copy-out, flag changes, exit) that does not make its caller wait for itself keeps the whole invariant, and returns |
| `IpcRun.RunsKeep` | kernel/proc.c:439-557 | every state of every run from an idle table, in which nobody is made to wait for itself, satisfies the whole invariant |
| `IpcTheorems.KeptExactly` | kernel/proc.c:439-557 | whatever is asked of the kernel, the invariant holds afterwards if and only if the call is not a permitted RECEIVE that names its own caller while it has no notification from itself; and every call returns |
| `IpcRun.StepReturns` | kernel/proc.c:674-738 | no kernel entry loops for ever: neither the walk of deadlock() nor the cancel loop of exit |
| `IpcTheorems.NoCycleNoMissedRendezvous` | kernel/proc.c:840-1080 | over every run: the wait-for graph has no cycle; nobody is on the caller queue of a process that would take its message; each queue holds, once each, exactly the processes that are sending to its owner |
| `IpcTheorems.MessagesConserved` | kernel/proc.c:865-926 | over every run and for every process: the messages accepted from it are those settled, in order and unchanged, followed by the one it is blocked with; settled means delivered, or given up after one of the two parties exited; each buffer holds the message last put there and not copied out since |
| `IpcAccepts.StepAccepts` | kernel/proc.c:840-932 | a step adds to the history one accepted message, with its sender, destination and contents, if it is a send that returns OK, and none otherwise |
| `IpcOrder.GivenUpByExit` | kernel/system.c:495-521 | over every run: a message is given up only if its sender or its destination has exited |
| `IpcOrder.StepGivesUp` | kernel/system.c:495-588 | no step but exit gives up a message, and exit only those from or to the process that exits |
| `IpcOrder.OldestFirst` | kernel/proc.c:1016-1057 | a receive leaves all caller queues alone or takes one sender off the caller's own: its message is in the caller's buffer, it is free, the others keep their places; from ANY it is the one whose message was accepted first, from one process it is that process |
| `IpcOrder.FirstComeFirstServed` | kernel/proc.c:1016-1057 | over every run: while a process waits on a caller queue, whoever came after it still waits behind it, unless the receiver asks for that one by name or that one exits |
| `IpcBoxes.StepBoxed` | kernel/proc.c:865-895 | every step keeps: nothing is put in a full buffer, and only what is in a buffer is copied out of it |
| `IpcBoxes.NoMessageOverwritten` | kernel/proc.c:868-895 | over every run: what was put in the buffer of a process is what was copied out of it, in order, and what is in it |
| `IpcNotices.NoNoticeIgnored` | kernel/proc.c:972-1000 | over every run: nobody who would take a notification has one pending |
| `IpcNotices.NoticeNotLost` | kernel/proc.c:972-1000 | across every step a pending notification stays pending or is delivered, unless its own sender exits |
| `IpcNotices.NoticeInRuns` | kernel/proc.c:972-1000 | so over every run, from any point to any later one |
| `IpcNotices.NoticeArrives` | kernel/proc.c:1085-1130 | over every run: a notification that was sent is at every later point delivered or pending, unless its sender has exited since |
| `IpcTheorems.SendrecCoherent` | kernel/proc.c:529-544 | over every run: a process blocked both ways names one partner for both, and no process that waits has an undelivered message, so the assertions before a delivery hold |
| `IpcTheorems.WalkersAndQueuedAlive` | kernel/proc.c:697-698 | over every run: the processes that a walk of deadlock() meets are in use and leave room in its array, and whoever is on a caller queue is alive, so the assertions on them hold |
| `IpcTheorems.SecondHalfSucceeds` | kernel/proc.c:525-546 | once the send half of SENDREC returned OK, the receive half returns OK: neither ELOCKED nor EDEADSRCDST nor any other error |
| `IpcTheorems.AsyncAtMostOnce` | kernel/proc.c:1181-1301 | over every run: no entry of any asynchronous table is delivered twice by one SENDA; from an entry of the latest table exactly the message handed in has reached the destination named if it was handed in unfinished and is marked done with OK, and nothing otherwise, in particular nothing from an entry handed in finished |
| `IpcOnce.StepSpent` | kernel/proc.c:1181-1551 | no step makes more of what has been delivered from an entry and what still may be, except a SENDA that hands the entry in to be delivered though it was finished or not there |
| `IpcOnce.AtMostOnceOverall` | kernel/proc.c:1217-1283 | over every run, between any two points and over any number of SENDAs: an entry that its owner does not renew is delivered at most once, and not at all if it was not to be delivered at the start |
| `IpcOnce.ResubmittedOnce` | kernel/proc.c:1238-1238 | so a table handed in again and again, with the entry as the kernel left it, does not have the entry delivered twice, nor at all once it is finished |
| `IpcTheorems.AsyncNotForgotten` | kernel/proc.c:1267-1298 | over every run: every unfinished entry of a registered table has a valid, permitted destination, and the sender's bit is set there |
| `IpcTheorems.ExitCleansUp` | kernel/system.c:526-588 | from every state that satisfies the invariant exit finishes; nobody waits for the process any more, its queue is empty and it is on no queue, the other queues lose at most this process, exactly those who waited for it are released with EDEADSRCDST |
| `IpcResults.SendExact` | kernel/proc.c:840-932 | the exact condition of every result of a send, and its whole effect: EDEADSRCDST iff the destination has exited; a destination that waits for the caller has the message in its buffer and waits no more, with the caller and the queues unchanged; otherwise ENOTREADY iff the call may not block, ELOCKED iff the destination leads back to the caller, else the caller is last on its queue; EFAULT iff the message cannot be copied when it is needed; whatever is not OK changes nothing |
| `IpcResults.CallSends` | kernel/proc.c:525-550 | SEND and SENDNB that are permitted have exactly that outcome |
| `IpcResults.CallSendrecs` | kernel/proc.c:525-544 | the send half of SENDREC has that outcome with MF_REPLY_PEND set, and the call returns its result; if it fails nothing but that flag has changed |
| `IpcResults.QuantumSends` | kernel/proc.c:1844-1875 | a process out of quantum is stopped with RTS_NO_QUANTUM and its message to the scheduler has the outcome of a send |
| `IpcResults.CallChecked` | kernel/proc.c:468-526 | a call has an effect only if its trap is in the mask, the endpoint is in use, a send or notification has its destination in the send mask and a kernel task is named by SENDREC or RECEIVE only; otherwise nothing changes and the refusal is that of the first test that fails, exactly; a permitted call is never answered EINVAL, ECALLDENIED or ETRAPDENIED |
| `IpcResults.AcceptedEntitled` | kernel/proc.c:468-526 | over every run: every message ever accepted came from a call that the masks of its sender permitted at the time, or from the kernel on behalf of a process out of quantum |
| `IpcDeaf.NotifyExact` | kernel/proc.c:1085-1130 | a notification is refused iff there is no destination, delivered iff the destination waits for it and for no reply, and otherwise pending, with nothing else changed |
| `IpcDeaf.CallNotifies` | kernel/proc.c:546-548 | a NOTIFY that is permitted has exactly that outcome |
| `IpcDeaf.StepUnheard` | kernel/proc.c:529-532 | a process that does not wait, or waits for the reply to its SENDREC, is given no notification by any step but its own RECEIVE, and those pending for it stay unless their sender exits; its SENDREC itself takes none |
| `IpcDeaf.NotDisturbed` | kernel/proc.c:972-1000 | so over every run, from any such point up to its next RECEIVE |
| `IpcReceives.ReceiveExact` | kernel/proc.c:937-1080 | which message a receive takes: the pending notification with the lowest accepted id if there is one and no reply is awaited, else the asynchronous message that try_one or try_async finds, else that of the first accepted sender on the queue; it blocks or returns ELOCKED only if there is none of these |
| `IpcReceives.CallReceives` | kernel/proc.c:538-545 | a RECEIVE that is permitted and does not name its caller has exactly that outcome, with MF_REPLY_PEND cleared first |
| `IpcReceives.CallReceivesSelf` | kernel/proc.c:538-545 | one that names its caller takes the notification of the caller to itself if there is one, and otherwise blocks the caller on itself; nothing else changes |
| `IpcReceives.CallSendrecReceives` | kernel/proc.c:529-545 | after a send half that returned OK the receive half has the outcome of a receive with MF_REPLY_PEND set, so it takes no notification, or joins the blocked send half; the message already handed over stays in the buffer of the receiver |
| `IpcReceives.TryOneDelivers` | kernel/proc.c:1366-1466 | try_one returns OK iff the first entry of the table that is malformed or for the caller is for the caller, and then has delivered this entry |
| `IpcReceives.TryAsyncDelivers` | kernel/proc.c:1323-1360 | try_async delivers from the pending sender with the lowest id that has something for the caller, and returns OK iff one has |
| `IpcReceives.FirstSenderExact` | kernel/proc.c:1016-1057 | the sender found is the first on the queue that is accepted, and none iff none is |
| `IpcSendaExact.SendaExact` | kernel/proc.c:1181-1301 | what becomes of every entry of a table handed in: ECALLDENIED iff its endpoint is in use and is a kernel task or not in the send mask; EDEADSRCDST iff there is no such endpoint or one that passes these tests has exited; else delivered with OK iff it is the first entry of the table for a destination that waits for it and does not await a reply that the entry refuses to be, and otherwise left unfinished in a registered table with the bit set; the owner is notified iff a finished entry asks for it; EDOM and EPERM exactly for their reasons |
| `IpcTables.TryExact` | kernel/proc.c:1366-1466 | every result of try_one with its effect on the table, on the pending bit and on the registration, and the notice to the owner exactly if the entry asks for it |
| `IpcTables.CancelExact` | kernel/proc.c:1471-1551 | cancel_async marks exactly the open entries for the destination done with EDEADSRCDST, or EINVAL if malformed; it clears the pending bit, keeps the table registered iff another entry is open, and notifies the owner iff a cancelled entry asks for it |
| `IpcTables.ExitTables` | kernel/system.c:526-570 | exit settles the asynchronous sends to the process: every open entry for it of a registered table is done with EDEADSRCDST, no entry for another destination changes, and its own table is forgotten |
| `IpcTheorems.SelfReceive` | kernel/proc.c:539-546 | RECEIVE keeps the graph acyclic if and only if the caller does not name itself, or may not RECEIVE, or has a notification from itself pending |
| `IpcTheorems.SelfReceiveHappens` | kernel/proc.c:539-546 | an initial table in which a process receives from itself and then waits for itself |
| `IpcTheorems.WalkIntoSelf` | kernel/proc.c:693-735 | every walk of deadlock() that gets to a process that waits for itself goes on for ever |
| `IpcCalls.MiniSendKeeps` | kernel/proc.c:840-932 | mini_send keeps acyclicity, the caller queues, the rendezvous rule and the flag rules, and returns |
| `IpcCalls.MiniReceiveKeeps` | kernel/proc.c:937-1080 | mini_receive keeps them too, as RECEIVE and as the second half of SENDREC |
| `IpcCalls.MiniSendaKeeps` | kernel/proc.c:1181-1317 | SENDA keeps them |
| `IpcCalls.CancelAsyncKeeps` | kernel/proc.c:1471-1551 | cancel_async keeps them |
| `IpcInv.BlockSendKeeps` | kernel/proc.c:905-926 | a caller that blocks on a destination which does not lead back to it and does not wait for it keeps them |
| `IpcInv.BlockReceiveKeeps` | kernel/proc.c:1060-1073 | a caller that blocks receiving, alone or after its send blocked, keeps them |
| `IpcInv.UnqueueKeeps` | kernel/proc.c:1024-1055 | taking a sender off a queue keeps them, including the moment a SENDREC becomes a pure receiver |
| `IpcExit.ClearEndpointKeeps` | kernel/system.c:526-553 | exit keeps them |
| `IpcExit.ExitExact` | kernel/system.c:559-588 | what exit leaves behind, process by process and queue by queue |
| `IpcExit.ClearRefsExact` | kernel/system.c:572-587 | the table loop of clear_ipc_refs releases exactly the processes blocked on the one that exits and touches no other queue |
| `IpcPending.TryOnePending` | kernel/proc.c:1366-1466 | try_one keeps: every unfinished entry of a registered table is known to its destination, and pending bits belong to permitted senders |
| `IpcPending.CancelAsyncPending` | kernel/proc.c:1471-1551 | cancel_async keeps that too, although it clears a bit |
| `IpcPending.MiniSendaPending` | kernel/proc.c:1181-1301 | SENDA keeps that too, for the new table it registers |
| `IpcAsync.TryOneTruthful` | kernel/proc.c:1366-1466 | try_one keeps: no entry is delivered twice, and one marked done carries OK exactly if it was delivered |
| `IpcAsync.MiniSendaTruthful` | kernel/proc.c:1181-1301 | SENDA keeps that too, from one table of a sender to its next |
| `IpcAsync.CancelAsyncTruthful` | kernel/proc.c:1471-1551 | cancel_async keeps that too, marking entries as failed |
| `IpcKernel.Kernel.Deadlock` | kernel/proc.c:674-738 | the loop over P_BLOCKEDON returns the group size of the specified walk, on every acyclic table; its array index is asserted to be in range in every round |
| `IpcKernel.Kernel.AppendCaller` | kernel/proc.c:921-925 | walking p_q_link to the end appends the caller to the queue and changes no other queue |
| `IpcKernel.Kernel.TakeOut` | kernel/proc.c:1052-1053 | linking around an element removes exactly this element from its queue and keeps all others in order |
| `IpcKernel.Kernel.BlockSend` | kernel/proc.c:905-926 | blocks and queues the caller; stops at the assertion on p_q_link exactly if the link of the caller is set |
| `IpcKernel.Kernel.MiniSend` | kernel/proc.c:840-932 | on the linked table mini_send does what its specification, which IpcResults.SendExact pins down, does to the contents and leaves no stale link; the kernel stops exactly if the call may block, the destination is alive, does not wait for the caller and does not lead back to it, the message can be copied, and the link of the caller is set |
| `IpcKernel.Kernel.MiniNotify` | kernel/proc.c:1085-1130 | mini_notify on the table is its specification (IpcDeaf.NotifyExact) |
| `IpcKernel.Kernel.FindSender` | kernel/proc.c:1016-1057 | the walk along the caller queue finds the first acceptable sender |
| `IpcKernel.Kernel.MiniReceive` | kernel/proc.c:937-1080 | mini_receive on the linked table is its specification (IpcReceives.ReceiveExact), in all branches, and leaves no stale link |
| `IpcKernel.Kernel.ReceiveBlocking` | kernel/proc.c:1060-1074 | nothing acceptable: ELOCKED, or the caller blocks |
| `IpcKernel.Kernel.TryPending` | kernel/proc.c:1003-1013 | pending asynchronous sends, from one source or from any |
| `IpcKernel.Kernel.ScanTable` | kernel/proc.c:1391-1436 | the scan of try_one stops at the specified entry and knows whether everything is settled |
| `IpcKernel.Kernel.TryOne` | kernel/proc.c:1366-1466 | try_one on the table is its specification (IpcTables.TryExact) |
| `IpcKernel.Kernel.TryAsync` | kernel/proc.c:1323-1360 | try_async tries the pending senders in order of their ids until one delivers |
| `IpcKernel.Kernel.ScanEntries` | kernel/proc.c:1217-1290 | the loop of try_deliver_senda over the table; each entry meets the fate that IpcSendaExact.SendaExact states |
| `IpcKernel.Kernel.MiniSenda` | kernel/proc.c:1306-1317 | SENDA on the table is its specification (IpcSendaExact.SendaExact) |
| `IpcKernel.Kernel.CancelAsync` | kernel/proc.c:1471-1551 | cancel_async on the table is its specification (IpcTables.CancelExact) |
| `IpcKernel.Kernel.ClearIpc` | kernel/system.c:495-521 | clear_ipc takes the process off its queue and leaves p_q_link alone: the link becomes stale exactly if the process was not last, and no other link does |
| `IpcKernel.Kernel.ClearTable` | kernel/system.c:572-587 | the table loop of clear_ipc_refs; it makes stale exactly the links of released senders with a higher slot behind them on the queue |
| `IpcKernel.Kernel.CancelPending` | kernel/system.c:567-570 | the cancel loop ends, because every round clears a bit of s_asyn_pending |
| `IpcKernel.Kernel.ClearEndpoint` | kernel/system.c:526-553 | clear_endpoint on the linked table is its specification; it makes stale exactly the link of the process itself, if it was sending and not last on its queue, and those of the senders on its queue with a higher slot behind them |
| `IpcKernel.Kernel.SendReceive` | kernel/proc.c:529-546 | SENDREC; the kernel stops exactly if the send half blocks a caller whose link is set |
| `IpcKernel.Kernel.DoSyncIpc` | kernel/proc.c:439-557 | do_sync_ipc with all its refusals (IpcResults.CallChecked); the kernel stops exactly if a SEND or SENDREC that is not refused blocks a caller whose link is set |
| `IpcKernel.Kernel.NotifyScheduler` | kernel/proc.c:1844-1875 | the out-of-quantum message is sent on behalf of the process that ran out; the kernel stops exactly if that blocks a process whose link is set |
| `IpcKernel.Kernel.Enter` | kernel/proc.c:559-670 | every kernel entry on the linked table does what its specification does and returns, and keeps the invariant if and only if it does not make its caller wait for itself; or it stops, exactly if it blocks a caller in a send and the link of that caller is set; that link is then stale; no entry but exit makes a link stale, so without an exit the kernel never stops |
| `StaleLinks.LastOnTurn` | kernel/system.c:572-587 | when senders are taken off a queue in slot order, one is last on its turn if and only if no higher slot stood behind it |
| `IpcStop.StaleLinkStops` | kernel/proc.c:918-925 | two processes send to a third, it exits, the one with the lower slot sends again, and the kernel stops |
| `SysMap.Set` | kernel/const.h:25-26 | turning on a bit changes that bit only |
| `SysMap.Unset` | kernel/const.h:27-28 | turning off a bit changes that bit only |
| `SysMap.HasPending` | kernel/proc.c:743-808 | the search that skips empty chunks finds what a scan of all bits finds |
| `SysMap.ScanLowest` | kernel/proc.c:774-806 | that scan finds the lowest bit that is on, or nothing exactly if all are off |
| `SendMask.Masks.SetSendto` | kernel/system.c:324-347 | exactly which permissions change: both directions, except towards structures without a process, the own one, and peers whose trap mask has no bit but that of RECEIVE |
| `SendMask.Masks.UnsetSendto` | kernel/system.c:352-361 | closes exactly the two directions |
| `SendMask.Masks.FillSendtoMask` | kernel/system.c:366-376 | afterwards the process may send exactly to the mapped ids that have a process and are not its own; permission is mutual with every live peer that can reply; others gain nothing; permissions between other pairs do not change |
| `RunQueue.StepKeeps` | kernel/proc.h:248-266 | RTS_SET, RTS_UNSET, sched_proc with a priority that is a queue, and selection keep: every runnable process is on the queue of its priority exactly once, nothing else is queued, and only the current process is preempted |
| `RunQueue.RunsKeep` | kernel/proc.h:248-266 | so it is in every state of every run |
| `RunQueue.KeptExactly` | kernel/system.c:623-679 | whatever is asked, the invariant holds afterwards if and only if it is not an accepted sched_proc with priority NR_SCHED_QUEUES |
| `RunQueue.SchedProcMisses` | kernel/system.c:629-676 | the priority that an accepted sched_proc leaves is a queue if and only if it was not NR_SCHED_QUEUES; the kernel goes on to use the missing queue exactly if nothing but RTS_NO_QUANTUM stops the process |
| `RunQueue.SchedProcGoesAstray` | kernel/system.c:629-676 | a run in which that happens |
| `RunQueue.PickBest` | kernel/proc.c:1781-1793 | pick_proc finds nothing if and only if nothing is runnable; otherwise the head of a queue with the minimum priority number of all runnable processes |
| `RunQueueTheorems.NoOvertaking` | kernel/proc.c:1556-1620 | over every run: while two processes stay on a queue, the second never comes before the first, unless sched_proc moves the first |
| `RunQueueTheorems.NobodyForgotten` | kernel/proc.c:254-271 | when a new process is selected no process is left preempted; the one that was is first on its queue if it has time left, else last, unless it is stopped for another reason |
| `RunQueueTheorems.SelectsBest` | kernel/proc.c:273-286 | a selection takes a runnable process of minimum priority number; the CPU idles exactly if nothing is runnable |
| `RunQueueTheorems.StepUrgent` | kernel/proc.c:1589-1600 | preemption keeps the running preemptible process at least as urgent as every runnable one, for every step, if and only if the step is not a sched_proc that demotes it behind a runnable process |
| `RunQueueTheorems.UrgentRuns` | kernel/proc.c:1589-1600 | so it is in every run without such a demotion |
| `RunQueueTheorems.DemotedRunsOn` | kernel/system.c:651-676 | a demoted running process is not preempted and the next selection keeps it |
| `RunQueueTheorems.DemotionHappens` | kernel/system.c:651-676 | a run after which such a demotion is possible |
| `RunQueueExact.SetExact` | kernel/proc.h:248-256 | RTS_SET adds exactly these flags; the process leaves its queue unless it stays runnable, and nothing else changes |
| `RunQueueExact.UnsetExact` | kernel/proc.h:258-266 | RTS_UNSET removes exactly these flags; a process that becomes runnable is last on the queue of its priority; the current process is preempted, and off its queue, iff it is preemptible and less urgent; nothing else changes |
| `RunQueueExact.SchedExact` | kernel/system.c:623-679 | sched_proc for every process: EINVAL iff out of range, and then nothing changes; otherwise priority, quantum and time left are those given unless -1, RTS_NO_QUANTUM is gone and the other flags stay; a process that is runnable then is last on its new queue; others change only in that the current process may be preempted |
| `RunQueueExact.SelectExact` | kernel/proc.c:247-286 | a runnable current process goes on; otherwise a process that was only preempted is put in front of its queue if it has time left and behind it if not, and no queue changes otherwise |
| `RunQueueTable.ReadyTable.Enqueue` | kernel/proc.c:1556-1620 | enqueue on head, tail and p_nextready appends to the queue, and the nested RTS_SET takes an outranked current process off its own |
| `RunQueueTable.ReadyTable.EnqueueHead` | kernel/proc.c:1631-1659 | enqueue_head prepends; its last assignment stands outside the else branch and does no harm |
| `RunQueueTable.ReadyTable.Dequeue` | kernel/proc.c:1677-1718 | dequeue removes exactly the process, keeps the others in order and repairs the tail |
| `RunQueueTable.ReadyTable.RtsSet` | kernel/proc.h:248-256 | RTS_SET on the linked queues is its specification (RunQueueExact.SetExact) |
| `RunQueueTable.ReadyTable.RtsUnset` | kernel/proc.h:258-266 | RTS_UNSET on the linked queues is its specification (RunQueueExact.UnsetExact) |
| `RunQueueTable.ReadyTable.SchedProc` | kernel/system.c:623-679 | sched_proc on the linked queues is its specification (RunQueueExact.SchedExact), for every priority and quantum |
| `RunQueueTable.ReadyTable.PickProc` | kernel/proc.c:1761-1795 | pick_proc returns the head of the first non-empty queue, and its assertion holds |
| `RunQueueTable.ReadyTable.SwitchToUser` | kernel/proc.c:247-286 | the selection of switch_to_user on the linked queues is its specification (RunQueueExact.SelectExact) |
| `RunQueueTable.ReadyTable.Perform` | kernel/proc.h:248-266 | every step keeps links and tails in agreement with the queues, and the invariant if and only if it is not an accepted sched_proc with priority NR_SCHED_QUEUES |
| `RunQueueCheck.Checker.RunQueuesOk` | kernel/debug.c:17-108 | runqueues_ok_cpu ends on every table, whatever its heads and links, and says yes if and only if some queues fit the heads, links and tails and file exactly the runnable processes, each once and by priority |
| `RunQueueCheck.Checker.CheckQueue` | kernel/debug.c:44-90 | the walk along one queue ends even on circles and shared elements; it rejects only tables that are not sane, and the loop counter is asserted never to decide |
| `RunQueueCheck.Checker.ClearMarks` | kernel/debug.c:26-29 | all marks are cleared; the counter is asserted never to decide |
| `RunQueueCheck.Verdict` | kernel/debug.c:93-107 | once all queues passed, the table is sane if and only if every slot is sound and every runnable process was met |
| `RunQueueCheck.OneQueue` | kernel/debug.c:44-90 | the links hold at most one queue |
| `RunQueueCheck.TablePasses` | kernel/debug.c:17-108 | every table that the run-queue operations maintain passes |
| `Irq.StepKeeps` | kernel/interrupt.c:34-187 | put, remove, interrupt, enable and disable, on registered hooks, keep: ids on a line are different single bits, active ids are among them, and the line is open if and only if it has a hook and no active one |
| `Irq.RunsKeep` | kernel/interrupt.c:34-187 | so it is in every state of every run |
| `Irq.KeptExactly` | kernel/interrupt.c:34-187 | with any hooks, registered or not, the invariant holds after an operation if and only if it does not move a hook between lines, enable a line without hooks, disable a line for an id that none of its hooks has, or disable an open line for no id at all |
| `Irq.HandleExact` | kernel/interrupt.c:121-169 | after an interrupt the active hooks are exactly those whose handler said no, whatever was active before; the line is open exactly if there are hooks and none said no |
| `Irq.RemovesItself` | kernel/interrupt.c:80-99 | rm_irq_handler goes by id: it takes exactly the hook itself if and only if the hook is registered or its old id is not in use |
| `Irq.RemovesAnother` | kernel/interrupt.c:80-99 | a run, put 0, remove 0, put 1, after which removing hook 0 removes hook 1 |
| `Irq.RemoveKeeps` | kernel/interrupt.c:80-111 | whatever hook is removed, the invariant holds afterwards |
| `Irq.TooManyExact` | kernel/interrupt.c:44-58 | a line takes 32 hooks; put_irq_handler gives up exactly at the next one |
| `Irq.FreeIdExact` | kernel/interrupt.c:53-55 | the id found is the lowest bit not in use |
| `IrqEffects.PutEffect` | kernel/interrupt.c:34-74 | a hook that is put is last on its line with the lowest id that no hook of the line has, and not active; the ids, places and activity of all others stay |
| `IrqEffects.RemoveEffect` | kernel/interrupt.c:80-111 | a registered hook that is removed is off its line and not active; order, ids and activity of all others stay |
| `IrqEffects.EnableEffect` | kernel/interrupt.c:172-177 | the hook is not active afterwards and the activity of all others stays |
| `IrqEffects.DisableEffect` | kernel/interrupt.c:180-187 | the answer is true iff the hook was not active before; it is active afterwards and its line is closed; the activity of all others stays |
| `IrqTable.Controller.Put` | kernel/interrupt.c:34-74 | put_irq_handler on the chains is its specification, also for a hook that is on another line, whose chain it cuts short |
| `IrqTable.Controller.LowestFree` | kernel/interrupt.c:53-55 | the shifting loop ends and finds the lowest id not in use, or none |
| `IrqTable.Controller.Remove` | kernel/interrupt.c:80-111 | rm_irq_handler on the chains is its specification |
| `IrqTable.Controller.Handle` | kernel/interrupt.c:121-169 | irq_handle on the chains is its specification; a spurious interrupt leaves the line masked |
| `IrqTable.Controller.EnableIrq` | kernel/interrupt.c:172-177 | enable_irq for any hook that has a line |
| `IrqTable.Controller.DisableIrq` | kernel/interrupt.c:180-187 | disable_irq returns whether the hook was enabled |
| `IrqTable.Controller.Perform` | kernel/interrupt.c:34-187 | every operation on any hook keeps the chains, and the invariant of the lines if and only if it does not upset it |
| `EventPool.Pool.Single` | benchmarks/pth-2.0.7/pth_event.c:109-115 | a new event is a ring of its own, pending |
| `EventPool.Pool.ChainTo` | benchmarks/pth-2.0.7/pth_event.c:102-108 | an event chained to a ring stands before the event named, and the rest of the ring keeps its order |
| `EventPool.Pool.Concat` | benchmarks/pth-2.0.7/pth_event.c:287-317 | for any number of separate rings: one ring, the first event, then each attached ring in order, then the rest of the first ring; all other links are untouched |
| `EventPool.Pool.Isolate` | benchmarks/pth-2.0.7/pth_event.c:320-335 | the event becomes a ring of its own and the rest stays a ring in the same order |
| `EventPool.Pool.AttachAndIsolate` | benchmarks/pth-2.0.7/pth_high.c:827-840 | attaching the caller's ring to a single event and isolating the event again restores every link |
| `EventPool.Pool.ChainAndIsolate` | benchmarks/pth-2.0.7/pth_event.c:102-108 | chaining a single event to a ring and isolating it again restores every link |
| `EventPool.Pool.Walk` | benchmarks/pth-2.0.7/pth_event.c:346-359 | the walk takes one step, or ends at the nearest event in its direction that occurred; it ends whenever there is one |
| `EventPool.WalkForever` | benchmarks/pth-2.0.7/pth_event.c:350-357 | while no event of the ring has occurred, walking until one has goes on for ever, in either direction |
| `EventPool.Pool.FreeAll` | benchmarks/pth-2.0.7/pth_event.c:374-381 | every event of the ring is freed exactly once, in order, and none is read after it was freed |
| `EventPool.Pool.FreeThis` | benchmarks/pth-2.0.7/pth_event.c:368-372 | the rest of the ring stays a ring |
| `EventPool.Pool.MarkPending` | benchmarks/pth-2.0.7/pth_event.c:396-402 | exactly the events of the ring become pending |
| `EventPool.Pool.CountNonPending` | benchmarks/pth-2.0.7/pth_event.c:418-427 | the result is the number of different events of the ring that are not pending |
| `Writev.IovBytes` | benchmarks/pth-2.0.7/pth_high.c:1138-1150 | the sum is the length of the concatenated pieces |
| `Writev.View.Advance` | benchmarks/pth-2.0.7/pth_high.c:1153-1188 | the view denotes the same bytes without the first ones, across the switch from the caller's vector to the copy |
| `Writev.View.Move` | benchmarks/pth-2.0.7/pth_high.c:1172-1185 | the loop that shortens or drops pieces skips exactly the bytes written, empty pieces and exact boundaries included |
| `Writev.ReportExact` | benchmarks/pth-2.0.7/pth_high.c:1067-1113 | for every script of short writes, failures and waits: the result of a blocking write says how many bytes were emitted if and only if no wait is broken off by an extra event after a short write; in particular whenever there are no extra events |
| `Writev.PartialWriteHidden` | benchmarks/pth-2.0.7/pth_high.c:1076-1082 | the script that fails: one of two bytes is written, the wait is broken off, and the call reports failure |
| `Writev.LoopCounts` | benchmarks/pth-2.0.7/pth_high.c:1084-1112 | the bytes emitted are the first ones of the data; unless a wait is broken off they are all counted, failure means none at all, and less than everything means that the descriptor took nothing or failed in the end |
| `Writev.LoopTakes` | benchmarks/pth-2.0.7/pth_high.c:1084-1112 | the loop stops neither early nor late: unless a wait is broken off, exactly what the descriptor takes until it takes nothing or fails is written |
| `Writev.CutTakes` | benchmarks/pth-2.0.7/pth_high.c:1072-1096 | when a wait is broken off, exactly what the short writes before it took is written |
| `Writev.WriteOnce` | benchmarks/pth-2.0.7/pth_high.c:1119-1128 | on a descriptor that does not block: one write of everything, whose answer is the result |
| `Writev.Drain` | benchmarks/pth-2.0.7/pth_high.c:1067-1113 | the loop of pth_writev_ev does what the specification of the loop does, for every script; the view always denotes the bytes not yet written; the copy leaves the temporary vector exactly if there is no room and the first write is short |
| `Writev.WriteVector` | benchmarks/pth-2.0.7/pth_high.c:1005-1135 | the whole call for every number of pieces, with its refusals EINVAL and EBADF and the single attempt on a descriptor that does not block; exactly when the copy of the vector runs over the end of the temporary one, and otherwise exactly when the result counts what was emitted |
| `Writev.WriteBuffer` | benchmarks/pth-2.0.7/pth_high.c:786-872 | the same for pth_write_ev, with its own refusals |
| `Writev.DrainBuffer` | benchmarks/pth-2.0.7/pth_high.c:825-866 | the loop of pth_write_ev does what the specification of the loop does |
| `Writev.RoomExact` | benchmarks/pth-2.0.7/pth_high.c:1037-1047 | the temporary vector has room for all pieces if and only if their number is at most 32 or more than the size of the stack vector in bytes |

## Left out

- Endpoint generations and slot reuse: slots and endpoints are fixed apart from exit; process creation is not modelled.
- Several CPUs, the hardening extensions (`hpick_proc`, `h_enable`, `h_unstable_state`), profiling, timers and accounting.
- IPC status bits, the arguments of notifications from HARDWARE and SYSTEM, `MF_SENDING_FROM_KERNEL` and delayed signals: they carry no invariant of the protocol.
- `RTS_SETFLAGS`, which calls `dequeue` for a process that is still runnable, against the assertion at `kernel/proc.c:1695`.
- Numbers that are no call at all, which `do_sync_ipc` refuses with ETRAPDENIED before anything else.
- The non-blocking form of `mini_receive`, which no call of `do_sync_ipc` uses.
- Failing copies of asynchronous tables, and senders that edit a table after handing it in.
- Whether a privilege structure is shared by several user processes: processes and structures are one to one.
- Order and promptness of asynchronous delivery: the kernel promises neither.
- The effect of message passing on the run queues is not traced call by call: the run-queue results hold for every sequence of flag changes, so for those of message passing too.
- Changes of send masks and trap masks during a run: rights are arbitrary but fixed, and `IpcTheorems.AsyncNotForgotten` depends on that (how masks are filled is modelled by itself in `SendMask`).
- A free slot that has other runtime flags besides RTS_SLOT_FREE: the kernel's test for an empty slot is an equality, and the model takes a free slot to have no other flag.
- IpcRun.RunsKeep: runs in which nobody is made to wait for itself, the only call that breaks the invariant (`IpcTheorems.KeptExactly`).
- RunQueue.RunsKeep: runs without a `sched_proc` that leaves a priority that is no queue, the only step that breaks the invariant (`RunQueue.KeptExactly`).
- RunQueueCheck.Checker.RunQueuesOk: tails name slots or nothing, because the checker follows them without a test; pointers into the middle of a slot are not modelled.
- Irq.RunsKeep: in runs a hook is put on a line only while it is on no other, and enabled or disabled only while registered (`Irq.KeptExactly` says what else is harmless); handlers only return yes or no.
- EventPool.Pool.Walk: until an event that occurred requires that one has, because the loop does not end otherwise (`EventPool.WalkForever`).
- EventPool.Pool.Concat: the rings are separate; a ring attached to itself is not modelled.
- Writev.WriteVector: what happens after the copy has run over the temporary vector; overflow of lengths; attempts interrupted by a signal are repeated until they are not, and switching the mode of the descriptor back is not modelled.
- `pth_writev_faked`, `pth_readv_faked` and the multi-event rings of `pth_select_ev` and `pth_accept_ev`.
- The kinds of events and their arguments in `pth_event`, and what happens to events while a thread sleeps.
