# A message-passing real-time kernel and its servers

This project models the kernel of `rtk` and the servers that run on it, and proves what they promise for
every input, every number of task descriptors, every buffer size and every run.

**The kernel.** A fixed pool of task descriptors is threaded through intrusive doubly linked lists: a list of
available descriptors, one list per state and priority, and a list of children per task. Creation, exit,
destruction, blocking, waking, interrupts and scheduling all relink the same nodes. Tasks talk by Send,
Receive and Reply, with one preallocated message record per task that serves as send, receive and reply
record in turn.

**The servers.** The clock server keeps delayed tasks in a sorted linked list. The serial server moves bytes
through two ring buffers with back-pressure on its transmit secretary. The shell's line editor keeps a
buffer and a terminal row in step. Number printing and parsing, and the multiply-with-carry generator, work in
32-bit arithmetic.

## How it is laid out

Code that changes things in place is imperative and proved against a specification on values; the promises are
proved about the specification.

| files | what they hold |
|---|---|
| `IntrusiveQueue.dfy` | `QueuePool`: `lib/queue.c` on arrays of links (indices, -1 for null), with the contents of every queue as a ghost sequence |
| `KernelModel.dfy`, `KernelCode.dfy` | the kernel as a value, and class `Rtk`: the statements of `kernel/task.c`, `kernel/task_queue.c` and `kernel/communication.c` over three `QueuePool`s, each method equal to its function on values |
| `KernelInvariant.dfy`, `KernelSteps.dfy`, `KernelDestroy.dfy`, `KernelReaping.dfy` | the invariant, what every handler does to it, subtree destruction and its recursion |
| `KernelRuns.dfy`, `KernelTheorems.dfy`, `KernelLineage.dfy`, `KernelRetirement.dfy`, `KernelScheduling.dfy`, `KernelInterrupts.dfy`, `KernelLines.dfy`, `KernelCounting.dfy`, `KernelStats.dfy` | runs of calls, interrupts and user stores from boot, and what holds in all of them |
| `KernelTransitions.dfy` | the table of what every call does to every task, and what ends a blocked task's wait |
| `KernelRecords.dfy`, `KernelMemory.dfy`, `KernelExchange.dfy`, `KernelReceive.dfy`, `KernelReplies.dfy` | what message records hold, what arrives, over whole runs, and exactly when Receive serves its caller |
| `KernelScenarios.dfy`, `KernelOrphans.dfy` | runs from boot that reach the states in which the source falls short; what becomes of the senders of a task that exits |
| `ClockModel.dfy`, `ClockServer.dfy` | the clock server |
| `CyclicBuffer.dfy`, `SerialModel.dfy`, `SerialServer.dfy` | the ring buffer and the serial server |
| `Terminal.dfy`, `LineModel.dfy`, `LineEditor.dfy` | one row of an ECMA-48 terminal, the abstract editor, and the shell's buffer |
| `Numbers.dfy`, `Strings.dfy`, `Random.dfy` | numerals, C strings, random numbers |
| `Lists.dfy`, `Arithmetic.dfy`, `Words.dfy`, `Cells.dfy` | shared vocabulary |

A run is any sequence of calls made by whatever task is current, interrupts with any code, and stores by the
current task to memory. `Running` is the invariant together with "some task runs"; `Enabled` says which calls may
be made. The event log and the birth ranks in the kernel's state, and the histories in the servers' states, are
there to state properties; no branch reads them, except that birth ranks bound the recursions.

## Where the source does something other than it says

The source is followed as it is written, and what that means is proved.

- `kernel/communication.c:87` fills in the record of the *last* waiting message and delivers the *first*. Both that
  and the version that fills in the first are modelled (`oldest`), in every theorem about runs. As written, Receive
  keeps what `include/communication.h:49-68` promises if and only if just one message is waiting (or the message is
  empty, as far as its bytes go); with two or more the caller's arguments make no difference to memory at all.
  Repaired, it keeps its promise however many wait (`SenderToldExactly`, `BufferFilledExactly`,
  `ReceiveIgnoresItsBuffer`). Two children that send to their parent are enough: `ReceiveMissesItsBuffer` is such a
  run from boot.
- `usr/serialserver.c:243-255` leaves `awaiting_transmit` false after sending another byte. Both that and the
  version that sets it again are modelled (`rearm`). Nothing is ever lost or reordered in either; as written the
  wake-up of the transmit secretary is lost for ever after filling a ring of any size, letting one byte go and
  submitting one more. A run gets stuck if and only if one of its submissions found nothing awaited and room for just
  one byte (`StuckExactly`). Bytes are also stranded: a byte that waits has an interrupt to wait for throughout a run
  if and only if no notice in it found more than one byte waiting (`StrandedExactly`), and once nothing is awaited no
  number of notices moves another byte until the next submission (`NoticesMoveNothing`). Three submissions and one
  notice are enough to get there (`ByteStranded`).
- Destroy (`kernel/task.c:336-378`) never takes message records out of message queues. The message invariant
  survives a Destroy if and only if no task of the subtree was in a message queue or had one waiting
  (`DestroyMail`); `DestroyedWithMail` is a run from boot in which one was. It also indexes with the parent's tid,
  which is -1 for the two boot tasks, and with the state of a free descriptor, since a tid is still accepted when its
  task is gone. In every state of every run the handler leaves its tables for exactly these tids: 0, 1, and those of
  destroyed tasks whose descriptors have not been handed out since (`DestroyOutOfBounds`). The first task can do it
  right after boot (`BootTaskDestroysItself`), and destroying any task twice in a row does it
  (`SecondDestroy`, `DestroyedTwice`); what C does then is undefined, and runs make no such call. It decrements
  `num_tasks` a second time for a task that had exited: over any run `num_tasks` is right if and only if no such task
  was destroyed, and behind by exactly their number otherwise (`TasksCounted`); after creating, exiting and
  destroying one child it is 1 while two tasks are alive (`ZombieDestroyed`). The error `ERR_NOT_CHILD` of
  `include/task.h:125` is never returned, whoever calls (`DestroyResults`): in `ChildDestroysParent` a task destroys
  its own parent.
- `include/task.h:60-69` has Exit take the task out of all queues; the code leaves it in the list of zombies, and its
  senders in its message queue. An Exit leaves senders blocked if and only if messages were waiting, exactly the
  senders of those messages (`ExitLeaves`), and nothing in any run ever releases one of them (`LeftForEver`).
  `ParentExitsUnread` is such a run from boot: a child sends, and its parent exits.
- `kernel/task.c:193` looks at the current task before there is one; the first scheduling decision is taken
  without one.
- `include/clockserver.h:31-32` has a delay return when the time is greater than the given number of ticks; the code
  releases at equality (`usr/clockserver.c:140`), and a delay until the present is answered at once
  (`EveryRunKeepsBooks`).
- `lib/random.c:7-13` compares the *old* seed with zero: seeding with zero is accepted once, and after that no seed
  is (`SeedZeroIsFinal`).
- `lib/stdlib.c:3-10` has no case for a sign: it reads back what `i2a` printed for every number that is not
  negative and, by accident, for -2115098112 (`SignedRoundTrip`).
- `lib/print.c:100` compares a digit with `>` where `>=` is meant: in base 10 an 'a' or 'A' behind a number is taken for
  a digit (`NumeralIsRead`).

## Model

| member | source | states |
|---|---|---|
| IntrusiveQueue.QueuePool.EnqueueQueue | lib/queue.c:3-15 | An absent node joins the end of one queue; all queues stay threaded in both directions with matching ends, and no other queue changes |
| IntrusiveQueue.QueuePool.DequeueQueue | lib/queue.c:17-37 | The oldest node leaves its queue with both links cleared, whatever state other nodes are in; an empty queue answers null and nothing changes |
| IntrusiveQueue.QueuePool.RemoveQueueNode | lib/queue.c:39-57 | A node leaves the queue it is in; a node that is in no queue and has null links is left alone, so removal can be repeated |
| IntrusiveQueue.Removed | lib/queue.c:39-57 | The five pointer updates splice the node out wherever it stands (first, last, only or inside), and change nothing when it is in no queue |
| KernelCode.Rtk.InitTasks | kernel/task.c:29-43 | For every number of descriptors the odd static free list (first and last set, no links, stray backward link) becomes the list of all descriptors in index order |
| KernelCode.Rtk.Launch | kernel/rtk.c:8-24 | From zeroed tables: the null task, the first user task, the first scheduling decision |
| KernelCode.Rtk.CreateTask | kernel/task.c:146-182 | Creation on linked lists equals creation on values: oldest free descriptor, next tid of its slot, ready, youngest child of its creator |
| KernelCode.Rtk.CreateTaskSafe | kernel/task.c:184-190 | The system call: priorities outside the user range are refused |
| KernelCode.Rtk.ExitTask | kernel/task.c:128-136 | The current task becomes a zombie and stays current until the next scheduling decision |
| KernelCode.Rtk.SetCurrentTaskPriority | kernel/task.c:65-77 | Refused below the user range, otherwise the current task changes priority |
| KernelCode.Rtk.GetParentTid | kernel/task.c:49-59 | No parent, a parent that is not alive any more, or the parent's tid |
| KernelCode.Rtk.SetCurrentTaskReturnValue | kernel/task.c:225-227 | The value of a call is stored for its caller and nothing else changes |
| KernelCode.Rtk.SetTaskState | kernel/task.c:241-252 | A stale tid changes nothing; otherwise the task leaves its list and joins that of the new state unless it is current or the state has no list |
| KernelCode.Rtk.AwaitEventHandler | kernel/task.c:284-293 | The current task waits for the event |
| KernelCode.Rtk.UnblockTaskWaitingOnEvent | kernel/task.c:295-309 | The oldest waiter of the most urgent priority that has one becomes ready with the re-enable code as its return value |
| KernelCode.Rtk.HandleIrq | kernel/task.c:311-334 | Negative codes wake a waiter of the corresponding line; any other code wakes nobody |
| KernelCode.Rtk.DequeuePriorityTaskQueue | kernel/task_queue.c:12-21 | The head of the first non-empty priority leaves its list; null if all are empty |
| KernelCode.Rtk.ScheduleAndActivate | kernel/task.c:192-213 | Put the current task back if it can be listed, take the oldest most urgent ready task, make it active |
| KernelCode.Rtk.DestroyCall | kernel/task.c:336-378 | The recursive handler, which consumes children lists while it walks them, computes the same as freeing the whole subtree in post-order |
| KernelCode.Rtk.DestroyHandler | kernel/task.c:336-378 | Refused for impossible and stale tids with nothing changed; otherwise the subtree below the task is severed and freed and the recursion ends |
| KernelCode.Rtk.TasksStatsHandler | kernel/task.c:380-407 | The table receives the entries of all listed tasks, state by state and priority by priority, within its MAX_TASKS rows, num_tasks is reported, and the scheduler is exactly as before |
| KernelCode.Rtk.SendProxy | kernel/communication.c:19-65 | All error cases; the record is filled in and queued, the sender blocks, and a waiting receiver is served at once |
| KernelCode.Rtk.ReceiveProxy | kernel/communication.c:67-96 | Waits with the buffer noted in its own record, whose uninitialised fields and links may become anything, or fills in a record, as written the last and once repaired the first, and completes with the first |
| KernelCode.Rtk.CompleteReceive | kernel/communication.c:98-113 | Oldest message out of its queue and copied, sender reply-blocked, receiver ready with the full length |
| KernelCode.Rtk.ReplyProxy | kernel/communication.c:115-148 | All error cases in their order; copy, release of the sender, truncation reported |
| KernelCode.Rtk.CopyMemory | lib/string.c:39-48 | Byte by byte, upwards, for any overlap |
| KernelCode.Rtk.Serve | arch/arm/context_switch.s:35-71 | One turn of the kernel loop on the linked structures, for any enabled call, interrupt or store: its handler, its return value and the next decision equal one step on values |
| KernelCode.Rtk.RunAll | kernel/rtk.c:20-23 | Any run on the linked structures ends in valid ones that hold the state the run on values ends in |
| KernelCode.Rtk.Session | kernel/rtk.c:8-24 | From zeroed tables, over boot and every run: every scheduler list, children list and message queue is threaded forwards and backwards exactly as the state on values says |
| KernelTheorems.InitHolds | kernel/task.c:36-43 | The whole invariant holds of the tables before any task exists |
| KernelTheorems.BootRuns | kernel/rtk.c:8-24 | Boot ends with the invariant and some task running |
| KernelSteps.CreateKeeps | kernel/task.c:146-182 | Creation keeps the whole invariant, with a descriptor left or none |
| KernelSteps.ExitKeeps | kernel/task.c:128-136 | Exit keeps the whole invariant |
| KernelSteps.UnblockKeeps | kernel/task.c:295-309 | Waking keeps the invariant, and changes the state of nobody but waiters of the event |
| KernelInterrupts.UnblockExact | kernel/task.c:295-309 | An event that nobody awaits changes nothing; otherwise exactly one task becomes ready, with the re-enable code: the first in line among the most urgent waiters |
| KernelInterrupts.InterruptExact | kernel/task.c:311-334 | The handler of an interrupt: a line that nobody awaits, or code 0 or 1, changes nothing; otherwise the next waiter of the line's event, and nobody else, becomes ready with the re-enable code |
| KernelTransitions.AwaitsUntil | kernel/task.c:284-334 | Over any run a task that called AwaitEvent goes on awaiting that event until an interrupt of a line with it finds the task next in line, or the task is destroyed |
| KernelTransitions.AwaitedIsWoken | kernel/task.c:311-334 | From boot, for every size and each of the lines 1 to 31: the first task awaits the line, the line interrupts, the task is woken |
| KernelLines.LastComesLast | kernel/task.c:284-309 | Whoever begins to await an event stands behind everybody who awaits one at its priority |
| KernelLines.FirstStaysFirst | kernel/task.c:295-309 | Over any run, of two such tasks the one that began first stays ahead for as long as both wait |
| KernelInterrupts.OneNextWaiter | kernel/task.c:295-309 | There is only one task that this can be |
| KernelInterrupts.OwnEvents | kernel/task.c:319-331 | The lines 1 to 31 have the events 2, 4, 8 and so on, and the sign bit for line 31; no two lines share one |
| KernelSteps.SendKeeps | kernel/communication.c:19-65 | Send keeps the invariant in every case |
| KernelSteps.ReceiveKeeps | kernel/communication.c:67-96 | Receive keeps the invariant, whichever waiting record the buffer goes into |
| KernelSteps.ReplyKeeps | kernel/communication.c:115-148 | Reply keeps the invariant in every case |
| KernelSteps.ScheduleKeeps | kernel/task.c:192-213 | Scheduling keeps the invariant whatever state the current task is in, and whoever it picks is active |
| KernelRuns.StepKeeps | kernel/task.c:122-378 | Every enabled call, interrupt or store followed by scheduling keeps the invariant, and again a task runs |
| KernelTransitions.HandleTabled | kernel/task.c:122-378 | The handler of any enabled call or interrupt: every task and every message queue afterwards is what one table says, the caller's return value included, and only Send, Receive and Reply touch memory and records |
| KernelTransitions.StepTabled | kernel/task.c:192-213 | With the decision that follows: the same, but for one task taken off the processor and one, able to run, put on it |
| KernelTransitions.StepOnBlocked | kernel/communication.c:19-148 | A blocked task changes in a step exactly if the call ends what it is blocked on, or the task, and then as the table says |
| KernelTransitions.BlockedUntil | kernel/communication.c:19-148 | Over any run a blocked task stays exactly as it is until such a call |
| KernelTheorems.EveryReachableState | kernel/task.c:146-378 | In every state of every run from boot: each descriptor is in exactly one place, the forest is sound, one message record per task suffices, histories fit states, and a task is active |
| KernelTheorems.OneRecordPerTask | kernel/communication.c:9-148 | A task's record is in the queue of its addressee exactly while the task is RECEIVE_BLOCKED, and in no other queue ever |
| KernelTheorems.Conversation | kernel/communication.c:48-148 | In any well-formed history each Send was received once by its addressee and then answered once, with nothing in between, or is the one still in progress |
| KernelTheorems.SendersAreReleasedByReply | include/communication.h:16-42 | In every reachable state each Send of a task not blocked in one was received exactly once and then answered exactly once; nothing else releases a sender |
| KernelTheorems.FirstComeFirstServed | include/communication.h:49-55 | What a receiver has taken is a prefix of what was sent to it, in order, and the rest is its queue, in order |
| KernelTheorems.TidsIdentifyLives | kernel/task.c:254-278 | IsTaskAlive holds of a tid exactly when the creation that returned it has neither exited nor been destroyed; no tid is returned twice over any run with reuse of slots |
| KernelTheorems.TidsFollow | kernel/task.c:146-182 | From unused descriptors on, tids come out consecutively and then every creation is refused |
| KernelTheorems.TidsInOrder | kernel/task.c:29-43 | At boot, repeated creation gives 0, 1, ..., n-1 and then ERR_UNAVAILABLE_DESCRIPTOR, for every n |
| KernelRetirement.CreateInRuns | kernel/task.c:146-190 | In every state of every run from boot: a proper Create is refused exactly if every descriptor has a task or no next tid, which is if every descriptor has a task while no last tid was used up; otherwise a descriptor without a task gets one with its next tid, which is the answer |
| KernelRetirement.DescriptorsLast | kernel/task.c:362-369 | In every state of every run from boot: a descriptor without a task is available exactly if its tid is below LONG_MAX - MAX_TASKS, and one is retired exactly if a task with such a last tid was destroyed |
| KernelDestroy.SubtreeIsDescendants | kernel/task.c:355-360 | The order of destruction holds every task whose chain of parent tids leads to the target, once, and nobody else |
| KernelDestroy.DestroyExact | kernel/task.c:336-378 | Exactly the target and its descendants die, each after everything below it; all other tasks are as they were, and their children too but for the target |
| KernelDestroy.DestroyLists | kernel/task.c:362-369 | Every scheduler list only loses the dead, order kept; their descriptors join the free list in post-order, but for those with tids from LONG_MAX - MAX_TASKS on |
| KernelDestroy.DestroyMail | kernel/task.c:336-378 | The message invariant survives a Destroy if and only if nobody in the subtree was in a message queue or had messages waiting |
| KernelScenarios.DestroyedWithMail | kernel/task.c:336-378 | From boot, a child that has sent to its parent can be destroyed, and the message invariant is gone |
| KernelLineage.DestroyOutOfBounds | kernel/task.c:336-369 | In every state of every run from boot: which tids are accepted, and for which of them the handler indexes outside its tables, both by the history of creations and destructions |
| KernelLineage.SecondDestroy | kernel/task.c:345-369 | The tid of a task that was just destroyed is accepted again, and that call leaves the tables |
| KernelLineage.DestroyedTwice | kernel/task.c:336-369 | From boot, a parent that destroys its child twice gets there |
| KernelLineage.BootTaskDestroysItself | kernel/task.c:351-353 | Right after boot the running task's tid is accepted, and its parent's is no index |
| KernelLineage.OrphansAreOld | kernel/task.c:146-182 | Over any run the tasks without a parent are exactly those that had none when it began, under the same tids |
| KernelLineage.ParentTold | kernel/task.c:49-59 | In every state of every run from boot MyParentTid has no parent for the two boot tasks only, and answers ERR_PARENT_DESTROYED exactly if the creator has exited; otherwise the creator, of whom the caller is a child |
| KernelLineage.DestroyResults | include/task.h:116-126 | The three possible answers of Destroy, each with its exact condition, whoever calls |
| KernelLineage.ChildDestroysParent | kernel/task.c:336-378 | From boot with any four descriptors or more: a task destroys its parent, which is not its child, and is told OK |
| KernelOrphans.ExitLeaves | include/task.h:60-69 | An Exit leaves behind, blocked in its queue, exactly the senders of the messages it has not received, and none if and only if there are none |
| KernelOrphans.LeftForEver | kernel/task.c:128-136 | Such a sender is blocked with its message in that queue after every run, and the queue neither shrinks nor grows |
| KernelOrphans.ParentExitsUnread | kernel/task.c:128-136 | From boot with any three descriptors or more: a child sends, its parent exits, and the child waits for ever |
| KernelDestroy.DestroyKeeps | kernel/task.c:336-378 | Under that condition Destroy keeps the whole invariant |
| KernelReaping.PartwayStep | kernel/task.c:355-360 | Freeing the next child's subtree by the recursive call is one more step of freeing the parent's |
| KernelScheduling.MostUrgentOldestRuns | kernel/task.c:192-213 | The activated task was at the head of its ready list, and every task still ready is no more urgent and, at equal priority, younger in the list; there always is one |
| KernelRuns.NullIsReady | kernel/task.c:201 | Scheduling never finds the ready lists empty: the null task is always ready or current |
| KernelScheduling.HandlerKeepsPlace | kernel/task.c:122-378 | No call or interrupt pushes a waiting task back in its list |
| KernelScheduling.ScheduleMovesUp | kernel/task.c:192-213 | A decision that passes over a task moves it up by one if it picked one of its priority, and by none otherwise |
| KernelScheduling.BoundedOvertaking | kernel/task.c:192-213 | Over any run in which a ready task is passed over, every activation at its priority brings it one place nearer, so a task with k before it is overtaken at most k times |
| KernelScheduling.ReplyOrder | include/communication.h:73-77 | After a Reply the replier is current again only if it is strictly more urgent than the sender, and the sender only if the replier is not; at equal priority the sender runs, or is ahead of the replier in their list |
| KernelMemory.CopyBytesExact | lib/string.c:39-48 | A copy between buffers that do not run into each other moves exactly n bytes and nothing beyond |
| KernelMemory.CopyBytesRepeats | lib/string.c:39-48 | A copy that runs into its own source repeats the bytes between the two beginnings |
| KernelMemory.MessagesKeep | kernel/communication.c:98-104 | Over any run, repaired or as written, however long a message waits, it still reads as it did when Send was called |
| KernelMemory.ReceiveDelivers | include/communication.h:49-68 | With one message waiting, or with any number once repaired: the first min(message, buffer) bytes of the oldest message as sent and nothing beyond, or no byte at all without a buffer; its sender's tid, its full length |
| KernelMemory.SendDelivers | kernel/communication.c:52-62 | Sending to a waiting receiver fills the buffer and the tid word that the receiver passed to its own Receive, and both move on |
| KernelRecords.WaitingRecordStays | kernel/communication.c:72-85 | No call of anybody else touches the record of a waiting receiver |
| KernelRecords.OnlyReceiveWaits | kernel/communication.c:67-96 | Nobody starts to wait for a message except by a Receive that finds none |
| KernelRecords.WaitersAreNamed | kernel/communication.c:52-85 | In every reachable state the record of every SEND_BLOCKED task holds the tid address, buffer and length that the task itself passed to the Receive it waits in |
| KernelMemory.ReceiveIgnoresItsBuffer | kernel/communication.c:87-99 | As written: with two or more messages waiting, memory after Receive does not depend on the buffer, length or tid address passed to it |
| KernelReceive.SenderToldExactly | kernel/communication.c:87-101 | The caller is told the sender, whatever address it passes, if and only if the right record is filled in: as written, exactly with one message waiting |
| KernelReceive.BufferFilledExactly | kernel/communication.c:87-104 | The caller's buffer gets the message, wherever it is and whatever memory holds, if and only if the right record is filled in or there is nothing to put there |
| KernelScenarios.ReceiveMissesItsBuffer | kernel/communication.c:87-104 | From boot with any four descriptors or more: two children send, and Receive as written returns the first message's length although no argument makes it write a byte or tell the sender |
| KernelExchange.BootKeeps | kernel/rtk.c:8-24 | At boot nobody has named a buffer, so the statements about buffers hold from there on |
| KernelExchange.MessageArrives | kernel/communication.c:19-104 | Over runs from boot: a Receive gets the bytes as they were in the state in which the oldest sender made its last Send |
| KernelMemory.ReplyDelivers | kernel/communication.c:135-147 | The sender is released with the full length, its buffer gets the start of the reply and nothing beyond, and ERR_BUFFER_TOO_SMALL is reported exactly on truncation |
| KernelReplies.SendersAreNamed | kernel/communication.c:34-50 | In every reachable state the record of every task in a Send holds the addressee, message and reply buffer that the task itself passed to it |
| KernelReplies.ReplyArrives | kernel/communication.c:115-148 | Over runs from boot: a Reply puts its start into the buffer that the sender passed to its Send, byte by byte and nothing beyond, and tells it the full length |
| KernelCounting.DestroyCounts | kernel/task.c:362-375 | A Destroy puts num_tasks behind the number of tasks alive by one for each zombie in the subtree, and by no more |
| KernelCounting.HandleCounts | kernel/task.c:122-378 | No other call or interrupt changes the difference between num_tasks and the number of tasks alive |
| KernelCounting.TasksCounted | kernel/task.c:22-378 | Over every run from boot num_tasks equals the number of tasks alive if and only if no task was destroyed after it had exited; otherwise it is behind by exactly those |
| KernelScenarios.ZombieDestroyed | kernel/task.c:128-378 | From boot, create, exit and destroy: num_tasks is 1 while two tasks are alive |
| KernelStats.SnapshotExact | kernel/task.c:380-407 | The snapshot lists every descriptor that is neither free nor retired, current and zombies included, exactly once |
| ClockServers.ClockServer.SortedListInsert | lib/sortedlist.c:5-23 | The pointer-to-pointer walk puts the node behind every node of no greater priority and relinks nothing else |
| ClockServers.ClockServer.ReleaseDue | usr/clockserver.c:139-144 | The walk over the due heads releases exactly those |
| ClockServers.ClockServer.Serve | usr/clockserver.c:114-144 | One turn of the request loop on the linked list equals one step on values |
| ClockModel.InsertKeepsOrder | lib/sortedlist.c:5-23 | Insertion is stable: sorted by deadline, and by age among equals |
| ClockModel.OneOrder | usr/clockserver.c:139-144 | A set of delays has only one such order |
| ClockModel.ReleaseSplits | usr/clockserver.c:139-144 | The released tasks are the due part of the queue, answered in its order |
| ClockModel.StepRefinesSet | usr/clockserver.c:114-144 | One request on the sorted list is one request on a plain set of delays: the new delay joins, exactly the due ones leave, answered by deadline and by age among equals |
| ClockModel.EveryRunKeepsBooks | usr/clockserver.c:108-145 | After any sequence of requests only deadlines still to come wait, sorted, no task twice, and waiting plus answered delays are exactly those asked for, each answered at its deadline or at once if that had passed |
| ClockModel.RunReadsRequests | usr/clockserver.c:114-137 | After any sequence of requests the time is the number of ticks in it, the delays asked for are those in it, and Time was answered each time with the number of ticks before it |
| ClockModel.AnsweredOnce | usr/clockserver.c:108-145 | Each delay that the requests ask for waits or was answered, once in all, and it waits exactly while its deadline is still to come |
| CyclicBuffers.CyclicBuffer.Push | lib/cyclicbuffer.c:4-14 | Appends around the end of the array; a full ring refuses and is unchanged |
| CyclicBuffers.CyclicBuffer.Pop | lib/cyclicbuffer.c:16-26 | The oldest byte leaves; an empty ring refuses |
| CyclicBuffers.RingPush | lib/cyclicbuffer.c:9-11 | Writing at the wrapped index appends to the sequence that the ring holds |
| SerialServers.SerialServer.NotifierRequest | usr/serialserver.c:225-260 | The notifier branch, for any status bits |
| SerialServers.SerialServer.ReceiveSecretaryRequest | usr/serialserver.c:262-273 | The receive branch |
| SerialServers.SerialServer.TransmitSecretaryRequest | usr/serialserver.c:275-287 | The transmit branch |
| SerialModel.EveryRunConserves | usr/serialserver.c:219-291 | In every run, as written or repaired, in terms of its requests: bytes on the wire followed by the transmit ring are those submitted; bytes delivered followed by the receive ring are those that came in but for exactly those that met a full ring with nobody waiting; every request for a byte got one or still waits; a byte goes out whenever the transmitter is idle or found empty; no submission meets a full ring |
| SerialModel.EveryRunKeepsPressure | usr/serialserver.c:241-287 | With the flag set again: a waiting byte has an interrupt to wait for, and the transmit secretary is unreplied exactly while the ring is full |
| SerialModel.FromStartUp | usr/serialserver.c:196-291 | From start-up, for every ring size, all of this as equations between what the server did and what the requests alone say; and the back-pressure is exact with the flag set again |
| SerialModel.NoticesDrain | usr/serialserver.c:241-257 | As many transmitter-empty notices as there are bytes waiting put every one of them on the wire, whatever happens in between |
| SerialModel.SubmittedIsSent | usr/serialserver.c:241-287 | After one notice for each waiting byte everything submitted so far is on the wire, in order |
| SerialModel.NoticeReleases | usr/serialserver.c:249-255 | The first notice after the ring filled up releases the transmit secretary |
| SerialModel.SubmissionAsWritten | usr/serialserver.c:275-287 | As written, a submission leaves the secretary blocked exactly while the ring is full if and only if a byte was awaited or the ring had room for two |
| SerialModel.StuckExactly | usr/serialserver.c:241-287 | As written, a run gets stuck if and only if some submission in it found nothing awaited and room for just one byte |
| SerialModel.NoticeAsWritten | usr/serialserver.c:241-257 | As written, a notice that sends a byte leaves an interrupt to wait for exactly if that was the last byte waiting |
| SerialModel.StrandedExactly | usr/serialserver.c:241-287 | As written, every waiting byte has an interrupt to wait for throughout a run if and only if no notice in it found more than one byte waiting |
| SerialModel.NoticesMoveNothing | usr/serialserver.c:241-257 | As written, once nothing is awaited no sequence of notices and receive requests sends a byte |
| SerialModel.ByteStranded | usr/serialserver.c:241-287 | As written, for every ring size from two on: after three submissions and one notice a byte waits with nothing awaited, and no notices or receive requests ever send it |
| SerialModel.StuckForEver | usr/serialserver.c:249-255 | A secretary held back beside a ring with room is never released by any request |
| SerialModel.WakeUpLostForEver | usr/serialserver.c:243-287 | As written, for every ring size, a reachable state from which nothing is ever submitted again |
| LineEditors.LineEditor.Press | usr/shell.c:65-171 | One key on the buffer, the C string in it, memmove and the formatted output is one key on the text to the left and right of the cursor, and prints its echo; the buffer is terminated whenever it is printed or handed over |
| LineEditors.LineEditor.PressAll | usr/shell.c:61-173 | Any legal sequence of keys on the buffer is the same sequence on the text, and prints its echoes in order |
| LineEditors.Session | usr/shell.c:52-173 | After any session the buffer, the position, the lines handed over, the last reply and whether the shell ended are what the keys alone say, and the terminal shows the prompt and the buffer up to its length, with the cursor at that position |
| LineEditors.LineEditor.InsertKey | usr/shell.c:145-160 | A full line ignores the character; otherwise it is put in at the cursor |
| LineEditors.LineEditor.BackspaceKey | usr/shell.c:129-142 | The character before the cursor goes; nothing at the start of the line |
| LineEditors.LineEditor.ArrowKey | usr/shell.c:100-126 | The cursor moves within the line |
| LineEditors.LineEditor.EnterKey | usr/shell.c:69-89 | The line is emptied; the command gets exactly the text of the line, "exit" ends the shell, an empty line starts nothing |
| LineModel.KeyInStep | usr/shell.c:65-171 | After each key the row shows prompt and line with the cursor in place; it is hidden exactly when the buffer is full up to the cursor |
| LineModel.ScreenFollows | usr/shell.c:52-173 | For every buffer size, prompt and sequence of printable keys, arrows, backspaces and lines: a terminal fed all the output shows exactly the prompt and the line, cursor in place, and the line fits the buffer with its terminator |
| LineModel.EditsUndo | usr/shell.c:100-160 | Backspace undoes an insertion, and each arrow the other |
| LineModel.RunTypes | usr/shell.c:65-171 | For every sequence of keys: the line, the cursor and every line handed over are what typing into one flat text gives |
| LineModel.TypedIsRun | usr/shell.c:69-89 | A word that fits, typed and entered, is the command that is run |
| LineModel.LinesAreTidy | usr/shell.c:26-31 | Output made of printable lines leaves the cursor where the next prompt belongs |
| Terminals.FeedControl | lib/terminal.h:11 | A control sequence with a decimal parameter does what the parameter says |
| Terminals.FeedText | usr/shell.c:150-152 | Printed text overwrites the row from the cursor on and nothing else |
| Strings.MemMove | lib/string.c:68-87 | Right for any overlap, in place |
| Strings.MemCpy | lib/string.c:39-48 | Right unless the destination begins inside the source |
| Strings.StrCmp | lib/string.c:50-56 | Zero exactly for equal texts up to the terminator, negative exactly if the first is a proper beginning of the second or has the smaller character where they first differ, positive exactly the other way round |
| Numbers.Scale | lib/print.c:31-34 | The scaling loop stops at the largest power not above the number, inside a word |
| Numbers.UI2A | lib/print.c:56-72 | Writes the numeral and its terminator over the buffer and nothing else |
| Numbers.I2A | lib/print.c:74-81 | Signed decimal, the most negative number included, in twelve characters |
| Numbers.DigitsAreNumeral | lib/print.c:56-72 | What is printed has only digits of the base, no leading zero, and is worth the number |
| Numbers.DigitsExact | lib/print.c:83-92 | Digits are printed in the case asked for and read in either, and no other character is a digit |
| Numbers.OnlyNumeral | lib/print.c:56-72 | No other string is such a numeral of the number |
| Numbers.DigitsLength | lib/print.c:124 | A numeral has at most k digits exactly below base^k |
| Numbers.NumbersFit | lib/print.c:124 | Every signed or unsigned word in base 10 or 16 fits the formatter's buffer |
| Numbers.PutChW | lib/print.c:109-120 | Emits exactly max(width, length) characters: padding, then the whole text |
| Numbers.AtoI | lib/stdlib.c:3-10 | The text's decimal worth, taken into a signed word |
| Numbers.PrintedIsRead | lib/stdlib.c:3-10 | atoi recovers a printed unsigned number exactly when it fits a signed word |
| Numbers.SignedRoundTrip | lib/stdlib.c:3-10 | atoi recovers what i2a printed exactly for numbers that are not negative and for -2115098112 |
| Numbers.A2I | lib/print.c:94-107 | Reads the longest run of digits it accepts, with its value in a word, and stops just behind it |
| Numbers.NumeralIsRead | lib/print.c:94-107 | A printed numeral is read back and the pointer left right behind it if and only if the character that follows is not the digit worth the base itself |
| Random.NextExact | lib/random.c:19-23 | A draw never overflows, times 2^16 is the old seed modulo p, and stays within 1..p-1 |
| Random.NextInjective | lib/random.c:19-23 | Different seeds in 1..p-1 lead to different draws |
| Random.DrawsDegenerateOnlyFromMultiples | lib/random.c:4-23 | Over any number of draws, a seed is worth zero modulo p exactly if it started so, and then it never changes |
| Random.Generator.RandMax | lib/random.c:25-31 | At most max; the greatest word is refused |
| Random.Generator.RandRange | lib/random.c:33-39 | Within the bounds, without overflow; crossed bounds are refused |
| Random.Generator.Seed | lib/random.c:7-13 | As written: a zero generator takes no seed |
| Random.SeedZeroIsFinal | lib/random.c:7-23 | Seeding with zero is accepted, and from then on, through any sequence of seedings and draws, every draw is zero |

## Left out

- KernelMemory.ReceiveDelivers: as written only for one waiting message, because the source breaks its promise with more, as `SenderToldExactly` and `BufferFilledExactly` say.
- KernelMemory.MessagesKeep: covers runs in which tasks name their own buffers and write only their own memory, and, as written, never receive with two messages waiting, since otherwise a record names a foreign buffer.
- KernelTheorems.EveryReachableState: covers runs in which a Destroy names an existing task with a parent whose subtree has no message queued; `DestroyMail` shows the last condition to be necessary and `DestroyedWithMail` that it can fail; the others keep the handler's indices inside its tables, and `DestroyOutOfBounds` says by the history which calls they shut out.
- KernelTransitions.BlockedUntil: covers the runs that `EveryReachableState` covers.
- KernelOrphans.LeftForEver: covers the runs that `EveryReachableState` covers, in which neither the sender nor the exited task is destroyed.
- KernelExchange.MessageArrives: covers the same runs as `MessagesKeep`, and its last Receive is one with a single message waiting or a repaired one, for the same reason.
- KernelCode.Rtk.Session: covers the runs that `EveryReachableState` covers.
- ClockServers.ClockServer.Serve: requires the sender's tid to be an index of the node table, which the source uses unreduced, and deadlines and the tick count to stay within a 32-bit int, where C leaves overflow undefined.
- LineModel.ScreenFollows: printable characters only, no line wrap, no form feed (which clears the screen but not the line), commands whose output ends at the start of a blank row; nothing is said of the cursor's visibility right after Enter, since the source only sets it after other keys.
- Numbers.UI2A: bases 2 to 16; the source uses 10 and 16.
- Numbers.A2I: bases 2 to 16, with signed overflow wrapping around.
- CyclicBuffers.CyclicBuffer.Push: element size 1, the only one in use; for larger elements the source forgets to scale its index.
- ARM assembly, register frames, stacks and context switches: activation is "control passes to the current task", and a return value is a field of the task rather than a word on its stack.
- Memory-mapped registers: the UART is a log of bytes written and arbitrary status bits read; enabling and disabling interrupt lines is not modelled.
- Tid words written by Receive live apart from byte memory; message and reply lengths are not negative.
- SetTaskPriority and GetTaskPriority: their validity test can never succeed, and the getter returns the state.
- Single-task statistics and timing figures: copies of fields, and a clock.
- The hash table and the name server: insertion ignores the slot it searched for.
- The semaphore and rock-paper-scissors servers, the echo, rand, whois and top programs, command dispatch by name: a command is what it prints and what it returns.
- Scanning of format strings: what each `Print` of the shell emits is written out with the modelled number and string formatting.
- String functions that none of this uses.
