# The RT-Thread kernel core in Dafny

A Dafny model of the parts of the RT-Thread 5.1 kernel whose correctness spans several
functions and every run: mutexes with priority inheritance, events, mailboxes and message
queues, the schedulers for one and for several cores, the timer list, and the three heap
allocators. State that the kernel updates in place is a class with the kernel's fields; what
the operations promise is proved about functions and predicates on values, in small lemmas.
`dafny verify dfyconfig.toml` checks everything.

What one step is. IPC objects and schedulers are state machines: a call up to its
`rt_schedule`, a timeout, and the code that runs after a wake-up are one step each, and any
thread may run between two steps. A method requires that its step can happen in the state at
hand; the `Run` methods take any sequence of steps, skip exactly those that cannot happen, return
the result of every step and a record in which each is related to the state before and after it
by `Steps`, and state what holds at the end. Heaps and timers have runs too: those of a simple
allocator of bytes and of a table of deadlines.

| file | contents |
|---|---|
| Lists, MachineWords | list operations, 32-bit and 64-bit words |
| SuspendList, Ledger | waiting lists, the record of a run, what went into and came out of a queue |
| MutexState, MutexSteps, MutexChains, Mutex, MutexRun | mutexes with transitive priority inheritance, their runs |
| Event | event flags |
| Waiting, Arrival | senders and receivers that sleep, who is woken |
| Mailbox, MailboxRun | the mailbox, its runs |
| MessagePool, MessageQueue, MessageQueueRun | the node pool, the message queue, its runs |
| Bits, ReadyQueue, UpScheduler, SmpScheduler | `__rt_ffs`, ready queues with bitmaps, the schedulers |
| TimerRows, Timers, TimerRun | wrapping ticks, sorted insertion, the skip list, firing, runs |
| Allocator | what a heap is to its clients: pointers and the bytes last written through them |
| Blocks, SmallMem, SmallMemRun | block lists, the small memory algorithm, its runs |
| FreeLists, MemHeap, MemHeapRun | free lists, the memory heap, its runs |
| SlabPages, SlabZones, Slab, SlabRun | page runs, zones of chunks, the slab allocator, its runs |

Conventions. Threads, mutexes, timers and message nodes are numbers; memory addresses are
offsets. Linked lists are sequences, except that the block headers of the small memory algorithm
and the message nodes keep their links. Words of flags and bits are modelled where their width
matters: ticks and timeouts are 32-bit with explicit wrap-around, `__rt_ffs` works on 32-bit
words, event words are sets of bit numbers. The heap models have the structure sizes of a 64-bit
build without memory tracing. Where an allocator keeps its records in the heap, the bytes they lie
on count as overwritten.

Findings. Some properties one might expect are false of the code; each comes with the exact
condition under which it holds.

- After a timed-out mutex wait the owner can keep an inherited priority for good, if another
  step falls between the timeout and the waiter's clean-up (`PriorityMutex.LostDemotion`). A
  clean-up restores the exact priorities if and only if the waiter and the owner are equally
  urgent or the owner still needs the priority it has (`PriorityMutex.MutexSystem.CleanUp`).
- Binding a ready thread to a core leaves it ready but in no queue. Binding keeps the state
  consistent if and only if the thread is not ready (`SmpScheduler.Scheduler.Bind`).
- A thread woken in vain in a mailbox or message queue call waits on until the deadline of its call
  if and only if it runs at most half the tick range after that deadline; later than that it can
  wait once more (`Waiting.WaitAgain`, `Waiting.RemainingExact`; `Waiting.LateWait` is an instance).
- A check of the timers never comes to an end if a timer of period zero is due. With deadlines in
  range it ends if and only if there is none (`Timers.EndsExactly`, `Timers.NeverSettles`).
- The memory heap refuses a request for exactly all its free bytes although a block fits
  (`MemHeap.RefusedExactly`, `MemHeap.WholeHeapRefused`).
- The memory heap's test for growing in place keeps the size of the block behind in a 32-bit
  variable. It is right for every size asked for if and only if that block is below 2 GB
  (`MemHeap.NextSizeRange`). Otherwise a request larger than both blocks can pass, and the new
  header would be written behind them, outside the heap even; `MemHeap.OvergrowsExactly` says when,
  and `MemHeap.GrowsPastPool` is a run that ends there. A heap of up to 2 GB never gets there
  (`MemHeapRun.NeverBreaks`).
- Blocks of the slab whose size is a power of two are aligned to their size, counted from the start
  of the heap, up to the page size; above it if and only if the number of the page on which the
  zone or the large block begins is a multiple of the size in pages (`SlabZones.PowerAligned`,
  `SlabZones.PageAligned`).

## Model

| member | source | states |
|---|---|---|
| PriorityMutex.MutexSystem.GetMutexPriority | rt-thread/src/ipc.c:845-865 | the result is the minimum of the thread's initial priority and the cached priorities of the mutexes it holds: a lower bound of all and equal to one |
| PriorityMutex.MutexSystem.FindPosition | rt-thread/src/ipc.c:241-285 | the position behind all waiters at least as urgent and before the first less urgent one |
| PriorityMutex.MutexSystem.Requeue | rt-thread/src/ipc.c:888-897 | re-inserting a waiter whose priority changed makes the list sorted and the cached priority that of its head, and touches no other mutex |
| PriorityMutex.MutexSystem.UpdatePriority | rt-thread/src/ipc.c:868-920 | ends on every wait-for graph, cycles included; entered with the local equations broken for one thread at most, it leaves all lists sorted and every owner covering its waiters, and the exact equations if they held elsewhere |
| PriorityMutex.MutexSystem.Walk | rt-thread/src/ipc.c:877-917 | the propagation loop terminates because the sum of priorities falls while it raises urgency and the slack falls while it lowers it, and it turns round at most once |
| MutexState.SumsAfterChange | rt-thread/src/ipc.c:868-920 | how the two termination measures move when one thread's priority changes |
| MutexSteps.PriorityChanged | rt-thread/src/ipc.c:868-884 | setting one priority breaks the equations for that thread's pending mutex only |
| MutexSteps.Requeued | rt-thread/src/ipc.c:888-917 | after the requeue the equations are broken for the owner only, and whether its priority must change |
| PriorityMutex.MutexSystem.Take | rt-thread/src/ipc.c:1324-1447 | every outcome of a take (recursive hold, its limit, free mutex, no waiting, block) with the new state; keeps the invariant and the exact priorities |
| PriorityMutex.MutexSystem.Block | rt-thread/src/ipc.c:1400-1447 | the caller is suspended on the mutex and nothing but priorities and the order of waiters changes besides; if the owner is not itself suspended the caller stands behind its equals and only the owner is raised, exactly if it is less urgent |
| MutexSteps.BlockedOutcome | rt-thread/src/ipc.c:1400-1447 | after queuing, either the equations hold already or only the owner has to be raised |
| PriorityMutex.MutexSystem.CheckAndUpdatePriority | rt-thread/src/ipc.c:922-943 | the releasing thread's new priority is the right one whether or not it is recomputed |
| PriorityMutex.MutexSystem.HandOver | rt-thread/src/ipc.c:1626-1690 | the first waiter becomes owner with hold 1 and the cache is that of the next waiter, or the mutex becomes free |
| MutexRun.NextOwner | rt-thread/src/ipc.c:1626-1690 | a last release gives the mutex, held once, to the first waiter, than which none that goes on waiting is more urgent; the others keep their order; with no waiter it is free |
| PriorityMutex.MutexSystem.Release | rt-thread/src/ipc.c:1581-1707 | not the owner, nested release, last release: full new state each; keeps the invariant and the exact priorities |
| MutexSteps.ReleasedEffect | rt-thread/src/ipc.c:1613-1690 | giving a mutex up keeps the invariant and the exact priorities for the releaser, the new owner and all others |
| PriorityMutex.MutexSystem.Timeout | rt-thread/src/thread.c:117-145 | a timeout takes the waiter off the list, leaves all priorities alone, and keeps the invariant |
| PriorityMutex.MutexSystem.Return | rt-thread/src/ipc.c:1449-1517 | a thread woken without error owns the mutex, one that timed out does not; effect of the clean-up |
| PriorityMutex.MutexSystem.CleanUp | rt-thread/src/ipc.c:1459-1508 | the clean-up after a timeout keeps the invariant; if only the mutex at hand was out of date it restores the exact priorities if and only if waiter and owner are equally urgent or the owner's priority is still due |
| MutexSteps.PromptCleanUp | rt-thread/src/ipc.c:1459-1508 | a clean-up right after its timeout always meets that condition |
| PriorityMutex.MutexSystem.TimeoutAndReturn | rt-thread/src/ipc.c:1449-1517 | a timeout and its clean-up with nothing in between keep the invariant and the exact priorities |
| PriorityMutex.LostDemotion | rt-thread/src/ipc.c:1459-1508 | a run that ends with a thread above its own priority although it holds no mutex |
| MutexChains.ChainUrgency | rt-thread/src/ipc.c:868-920 | along any chain of waits the last thread is at least as urgent as the first |
| MutexChains.UrgencyAlongChains | rt-thread/src/ipc.c:868-920 | no priority inversion through any chain |
| MutexChains.Source | rt-thread/src/ipc.c:845-920 | every inherited priority comes from the initial priority of some thread that waits through a chain |
| MutexChains.ExactIsInherited | rt-thread/src/ipc.c:827-943 | on acyclic waits the local equations say that each priority is the minimum initial priority over itself and all threads blocked on it through any chain |
| MutexRun.RunTallies | rt-thread/src/ipc.c:1324-1707 | in any run, counted from operations and answers alone: a thread that owns a mutex and has returned from its take has hold count takes less releases, all other threads have as many takes as releases, and a mutex handed over is held once |
| MutexRun.ReleaseAnswers | rt-thread/src/ipc.c:1581-1707 | in any run a release succeeds if and only if the thread has taken the mutex more often than released it |
| MutexRun.TakeAnswers | rt-thread/src/ipc.c:1324-1447 | in any run a thread that has the mutex gets it again up to the limit, and one that another thread has is not given but waited for, or refused without a waiting time |
| MutexRun.Exclusive | rt-thread/src/ipc.c:1324-1707 | no two threads have the same mutex, by the count of answers |
| MutexRun.ReleasedOnce | rt-thread/src/ipc.c:1581-1707 | a thread that was handed a mutex and neither takes nor releases it in between gives it up with one release |
| MutexRun.TimesOut | rt-thread/src/ipc.c:1400-1447 | in any run a timeout takes place if and only if the thread waits in a take that was given a limited time |
| MutexRun.Run | rt-thread/src/ipc.c:827-943 | any sequence of takes, releases, timeouts and returns is a run of the effects above, with their results; every hold count is the number of takes that succeeded less the number of releases; after it: sorted lists, owners at least as urgent as waiters, no inversion; if every timed-out thread cleans up at once, or none times out, the exact minimum, whenever waits are acyclic |
| SuspendList.FindPlace | rt-thread/src/ipc.c:256-268 | the position behind all threads at least as urgent and before the first less urgent one |
| SuspendList.Enqueue | rt-thread/src/ipc.c:241-285 | the place is the end, or behind all at least as urgent up to the first less urgent; adds the thread once, keeps a sorted list sorted |
| Event.ToClearIsUnion | rt-thread/src/ipc.c:2028-2044 | a flag is cleared exactly if a woken thread received it and asked to clear it |
| Event.MeetsMeans | rt-thread/src/ipc.c:1993-2026 | AND is met exactly if all flags named are there, OR exactly if one is |
| Event.EventObject.Send | rt-thread/src/ipc.c:1956-2052 | wakes exactly the waiters satisfied by the full set, in order, gives each its flags, then clears the union of what the clearing ones received; the invalid-mode path with its partial effect; with a consistent state that path is unreachable and every thread woken has an answer to what it asked; keeps the order of the list |
| Event.EventObject.WakeAll | rt-thread/src/ipc.c:1984-2040 | the walk over the list equals filtering it by the condition, up to the first waiter without a mode |
| Event.EventObject.Judge | rt-thread/src/ipc.c:1993-2026 | AND before OR; an AND waiter goes on exactly if all its flags are there, an OR waiter exactly if one is, and keeps only the flags received |
| Event.EventObject.Recv | rt-thread/src/ipc.c:2088-2191 | empty set, immediate success with exactly the received flags cleared, no waiting, sleep in the right place; full new state each; with AND it succeeds at once exactly if all flags asked for are there and gets them all, with OR exactly if one is |
| Event.EventObject.Resume | rt-thread/src/ipc.c:2193-2211 | a woken receiver returns flags that are among those it asked for and satisfy its AND or OR, one that timed out its timeout |
| Event.SendAnswers | rt-thread/src/ipc.c:1984-2040 | every thread a send wakes has flags that satisfy what it asked for, all others stand as before |
| Event.WaitsRightly | rt-thread/src/ipc.c:2140-2191 | a sleeping AND receiver lacks a flag it asked for, a sleeping OR receiver all of them |
| Event.SendLeaves | rt-thread/src/ipc.c:1956-2052 | a send leaves exactly the flags that were there or are sent and that no thread it wakes has received and asked to clear |
| Event.WokenAnswers | rt-thread/src/ipc.c:1956-2211 | in any run a thread that a send woke returns success with the flags it asked for that were there then, all of them with AND, whatever happens before it runs |
| Event.TimeoutAnswers | rt-thread/src/ipc.c:2193-2211 | in any run a thread whose timer ran out returns the timeout |
| Event.EventObject.Timeout | rt-thread/src/thread.c:117-145 | a timeout removes the waiter and keeps the invariant |
| Event.Run | rt-thread/src/ipc.c:1956-2212 | any sequence of operations is a run of sends, receives, wakeups and timeouts with the effects and answers above; after it no suspended thread's condition is satisfied by the current flags and every woken thread has an answer; the list is sorted if no priority changed |
| Waiting.SideWake | rt-thread/src/ipc.c:105-146 | one more message and one wakeup keep "messages are at most the receivers called" |
| Waiting.SideSleep | rt-thread/src/ipc.c:2587-2616 | a thread sleeps only when there is nothing for it, so nothing is forgotten |
| Waiting.SideAwake | rt-thread/src/ipc.c:2653-2681 | a running thread that takes a message or slot keeps the balance |
| Waiting.GoToSleep | rt-thread/src/thread.c:883-955 | the thread sleeps at its place in the list of its role, nobody else is touched, both sides stay balanced |
| Waiting.RemainingExact | rt-thread/src/ipc.c:2640-2647 | the 32-bit recomputation of the remaining time is exact if and only if the thread runs no later than half the tick range after its deadline |
| Waiting.WaitAgain | rt-thread/src/ipc.c:2583-2648 | a wait after a vain wakeup ends at the original absolute deadline if and only if the thread runs at most half the tick range after it, and giving up never happens before it |
| Waiting.LateWait | rt-thread/src/ipc.c:2640-2647 | a wait of 10 ticks whose thread runs half the tick range and one tick after its end is given almost half the range again |
| Waiting.PriorityQuietly | rt-thread/src/scheduler_comm.c:175-217 | a change of priority leaves sleepers where they are and loses no wakeup |
| Waiting.CallInOrder | rt-thread/src/ipc.c:241-285 | a call, whatever its outcome, leaves sorted lists of sleepers sorted |
| Waiting.ExpireQuietly | rt-thread/src/thread.c:117-145 | a timeout loses no wakeup and comes no earlier than the deadline |
| Arrival.MostUrgentFirst | rt-thread/src/ipc.c:105-146 | with sorted lists nobody that goes on sleeping in the role of the woken thread is more urgent |
| Arrival.FirstFirst | rt-thread/src/ipc.c:105-146 | with the FIFO policy nobody that goes on sleeping in that role fell asleep earlier |
| Mailbox.PutFront | rt-thread/src/ipc.c:2772-2788 | storing at the rewound output offset is adding at the front of the deque |
| Mailbox.TakeFront | rt-thread/src/ipc.c:2933-2944 | advancing the output offset is removing the front of the deque |
| Mailbox.Mailbox.Store | rt-thread/src/ipc.c:2653-2669 | writing at the input offset with wrap-around is adding at the back; the counter limit |
| Mailbox.Mailbox.SendLoop | rt-thread/src/ipc.c:2583-2681 | full mailbox: give up or sleep in the right place; otherwise the word goes to the back and exactly the first receiver is called; no wakeup lost |
| Mailbox.Mailbox.SendWait | rt-thread/src/ipc.c:2555-2684 | outcome of a send in every state and the deadline it sets; the overflow return is unreachable |
| Mailbox.Mailbox.ResumeSend | rt-thread/src/ipc.c:2627-2681 | a woken sender, however late, returns its timeout, sends its word, gives up no earlier than its deadline, or sleeps again, until the same deadline if and only if it is not later than half the tick range |
| Mailbox.Mailbox.Urgent | rt-thread/src/ipc.c:2760-2808 | the word goes to the front and the first receiver is called, or the mailbox is full |
| Mailbox.Mailbox.RecvLoop | rt-thread/src/ipc.c:2865-2959 | empty mailbox: give up or sleep in the right place; otherwise the front word is taken and exactly the first sender is called |
| Mailbox.Mailbox.RecvWait | rt-thread/src/ipc.c:2837-2964 | outcome of a receive in every state and the deadline it sets |
| Mailbox.Mailbox.ResumeRecv | rt-thread/src/ipc.c:2905-2959 | the same for a woken receiver |
| Mailbox.Mailbox.Timeout | rt-thread/src/thread.c:117-145 | a timeout keeps the invariant |
| MailboxRun.StepInOrder | rt-thread/src/ipc.c:241-285 | no step but a change of priority disturbs the order of the sleepers |
| MailboxRun.WokenIsMostUrgent | rt-thread/src/ipc.c:105-146 | whatever step wakes a thread with the priority policy and sorted lists, nobody that goes on sleeping in the same role is more urgent |
| MailboxRun.FirstComeFirstServed | rt-thread/src/ipc.c:105-146 | in any run with the FIFO policy a step wakes a thread only if nobody that goes on sleeping in the same role fell asleep earlier |
| MailboxRun.TimeoutAnswers | rt-thread/src/ipc.c:2632-2637 | in any run a call whose timer ran out returns the timeout when its thread runs again, whatever happens in between, and moves no word |
| MailboxRun.RunConserves | rt-thread/src/ipc.c:2555-2964 | in any run of steps the words of the successful sends are those received and those still there, each once; without urgent words the received ones and then the rest are the first ones and then the sent ones, in order |
| MailboxRun.Run | rt-thread/src/ipc.c:2555-2964 | any sequence of operations is a run of steps: each send, receive, wakeup and timeout has the outcome its state and time call for, a woken sender sends the word it came with, and only steps that cannot happen are skipped; after it no thread sleeps while a word or slot is there that nobody was called for; every word accepted was handed out once or is still there; without urgent words, in order; the lists of sleepers are sorted if no priority changed |
| MessagePool.ChainAppend | rt-thread/src/ipc.c:3515-3526 | linking behind the tail extends the chain by one node |
| MessagePool.LinkBehind | rt-thread/src/ipc.c:3515-3532 | head, tail and links after a send, the free list untouched |
| MessagePool.LinkBefore | rt-thread/src/ipc.c:3681-3688 | head, tail and links after an urgent send |
| MessagePool.TakeHead | rt-thread/src/ipc.c:3857-3870 | unlinking the head, the tail cleared exactly when the queue becomes empty |
| MessageQueue.RoomForOne | rt-thread/src/ipc.c:3528-3537 | while a message is copied in the queue does not hold all nodes, so the counter cannot overflow |
| MessageQueue.LinkIn | rt-thread/src/ipc.c:3486-3532 | the second part of a send: nodes stay partitioned, the message joins the deque at the right end, messages being copied out are untouched |
| MessageQueue.GrabHead | rt-thread/src/ipc.c:3857-3873 | the first part of a receive takes the front message and holds its node |
| MessageQueue.GiveBack | rt-thread/src/ipc.c:3886-3889 | the held node still has the message taken, and goes back to the free list |
| MessageQueue.Queue.constructor | rt-thread/src/ipc.c:3084-3143 | after initialisation all nodes are free and the queue is empty |
| MessageQueue.Queue.SendLoop | rt-thread/src/ipc.c:3406-3480 | no free node: give up or sleep; otherwise the first free node is held for the copy |
| MessageQueue.Queue.SendWait | rt-thread/src/ipc.c:3368-3480 | too long a message, full, copying or sleeping, with the deadline set |
| MessageQueue.Queue.ResumeSend | rt-thread/src/ipc.c:3455-3480 | a woken sender, however late: timeout, node, give up after its deadline, or sleep again, until it if and only if not too late |
| MessageQueue.Queue.Urgent | rt-thread/src/ipc.c:3643-3669 | the first part of an urgent send |
| MessageQueue.Queue.EndSend | rt-thread/src/ipc.c:3482-3558 | the copy and the second part: the message is at the back, or at the front if urgent, one receiver is called, and the overflow return is unreachable |
| MessageQueue.Queue.RecvLoop | rt-thread/src/ipc.c:3788-3873 | empty: give up or sleep; otherwise the front message is taken |
| MessageQueue.Queue.RecvWait | rt-thread/src/ipc.c:3750-3873 | outcome of a receive in every state |
| MessageQueue.Queue.ResumeRecv | rt-thread/src/ipc.c:3833-3873 | the same for a woken receiver |
| MessageQueue.Queue.EndRecv | rt-thread/src/ipc.c:3875-3910 | the receiver gets the message it took, whole or as much of its front as its buffer holds, however many steps came between; the node is free and one sender is called |
| MessageQueueRun.WokenIsMostUrgent | rt-thread/src/ipc.c:105-146 | the same for the message queue |
| MessageQueueRun.FirstComeFirstServed | rt-thread/src/ipc.c:105-146 | the same for the message queue |
| MessageQueueRun.TimeoutAnswers | rt-thread/src/ipc.c:3459-3464 | the same for the message queue |
| MessageQueueRun.ReceiverGets | rt-thread/src/ipc.c:3875-3910 | in any run what a receiver gets is a message some sender linked, whole if the buffer of its call holds it, otherwise as many bytes of its front as the buffer holds |
| MessageQueueRun.RunConserves | rt-thread/src/ipc.c:3368-3910 | in any run of steps the messages linked are those taken and those still queued, each once, in order without urgent ones |
| MessageQueueRun.Run | rt-thread/src/ipc.c:3368-3910 | any sequence of operations is a run of steps: each has the outcome its state and time call for, a sender links the message it came with, a receiver gets the message it took cut to its buffer, and only steps that cannot happen are skipped; after it no wakeup is lost, every node is queued, free or held by one thread, every message linked was taken once or is still queued, in order without urgent ones; the lists of sleepers are sorted if no priority changed |
| Bits.FfsIsLowest | rt-thread/src/kservice.c:1052-1107 | the table version of `__rt_ffs` is one more than the lowest bit set |
| Bits.PowerTest | rt-thread/src/slab.c:627 | the bit test of the zone set-up holds exactly for the powers of two |
| Bits.Isolated | rt-thread/src/kservice.c:1047-1050 | `v & (v - 1) ^ v` is the lowest bit alone |
| Bits.TinyFfsIsFfs | rt-thread/src/kservice.c:1020-1107 | the remainder version of `__rt_ffs` agrees with the table version on all 32-bit words |
| ReadyQueue.MarkAdds | rt-thread/src/scheduler_up.c:401-408 | setting the masks of a thread marks exactly its priority, with one and with two levels |
| ReadyQueue.UnmarkRemoves | rt-thread/src/scheduler_up.c:436-449 | clearing them unmarks exactly that priority |
| ReadyQueue.HighestIsLeast | rt-thread/src/scheduler_up.c:89-109 | the bitmap lookup finds the least marked priority |
| ReadyQueue.EnqueueKeeps | rt-thread/src/scheduler_up.c:385-408 | insertion keeps bitmap and lists in agreement and each thread in at most one list |
| ReadyQueue.DequeueKeeps | rt-thread/src/scheduler_up.c:434-449 | removal does too, also for a thread in no list |
| UpScheduler.InsertedOk | rt-thread/src/scheduler_up.c:370-413 | insertion keeps the invariant; the current thread runs on and no list changes; any other is ready in the list of its priority, at the end if and only if it yielded, all else as before, and removal undoes it |
| UpScheduler.Scheduler.GetHighest | rt-thread/src/scheduler_up.c:89-109 | the first thread of the most urgent list: no ready thread is more urgent |
| UpScheduler.SwitchedOk | rt-thread/src/scheduler_up.c:233-262 | a switch keeps the invariant; what it does to both threads |
| UpScheduler.Scheduler.Schedule | rt-thread/src/scheduler_up.c:201-324 | with the scheduler unlocked, afterwards no ready thread is more urgent than the current one, which runs if any was ready; when it switches and to whom; nothing happens while locked |
| UpScheduler.Scheduler.ReadyThread | rt-thread/src/scheduler_comm.c:103-145 | only a suspended thread becomes ready, in its list, or goes on if it is current |
| UpScheduler.Scheduler.ChangePriority | rt-thread/src/scheduler_comm.c:175-217 | the thread has the priority, whatever its status; a ready thread moves to the front of its new list, otherwise no list changes; masks follow the priority, invariant kept |
| UpScheduler.Scheduler.SuspendSelf | rt-thread/src/thread.c:883-955 | the running thread becomes suspended, the lists are untouched |
| UpScheduler.Scheduler.Startup | rt-thread/src/thread.c:393-410 | a new thread becomes ready in the list of its priority |
| UpScheduler.Scheduler.ExitCritical | rt-thread/src/scheduler_up.c:523-548 | leaving the last critical region schedules, leaving an inner one changes nothing but the count |
| UpScheduler.RingStep | rt-thread/src/scheduler_up.c:218-262 | a yield rotates the threads of the running priority by one |
| UpScheduler.Scheduler.Yield | rt-thread/src/thread.c:578-588 | the current thread goes behind its equals; a thread alone at its priority goes on |
| UpScheduler.Scheduler.YieldRound | rt-thread/src/scheduler_comm.c:93-101 | as many yields as there are threads of the top priority run each once, in order, and restore the queue |
| UpScheduler.Run | rt-thread/src/scheduler_up.c:201-452 | any sequence of operations is a run of the effects above, and the invariant holds after it; a final schedule leaves the most urgent thread running |
| SmpScheduler.InsertedOk | rt-thread/src/scheduler_mp.c:259-341 | insertion keeps the invariant; a thread still on its core runs again and no queue changes; any other is ready in the queue of its binding and the list of its priority, at the end if and only if it yielded, all else as before, and removal undoes it |
| SmpScheduler.Scheduler.GetHighest | rt-thread/src/scheduler_mp.c:165-252 | a ready thread allowed on the core, none allowed there is more urgent; of equals one bound to the core; the first in the list of its priority and queue |
| SmpScheduler.SwitchedOk | rt-thread/src/scheduler_mp.c:575-636 | detaching one thread and attaching another keeps the invariant |
| SmpScheduler.Scheduler.Schedule | rt-thread/src/scheduler_mp.c:561-649 | a switch picks the first of its list, allowed on the core and at least as urgent as everything in the global and local queues, before and after, one bound to the core before one that is not; without a switch no thread ready for the core displaces the current one, which is then allowed and most urgent if there is any |
| SmpScheduler.RingStep | rt-thread/src/scheduler_mp.c:561-649 | a yield on a core rotates the threads of the running queue and priority by one |
| SmpScheduler.Scheduler.YieldRound | rt-thread/src/scheduler_mp.c:561-649 | as many yields on a core as there are equally urgent threads in the queue of its thread run each once, in order, and restore the queue |
| SmpScheduler.Scheduler.ReadyThread | rt-thread/src/scheduler_comm.c:103-145 | a suspended thread still on its core goes on running, otherwise it goes to its place in the queue of its binding |
| SmpScheduler.Scheduler.ChangePriority | rt-thread/src/scheduler_comm.c:175-217 | the thread has the priority, whatever its status; a ready thread moves to the front of its new list in the same queue, otherwise no queue changes; keeps the invariant |
| SmpScheduler.Scheduler.Bind | rt-thread/src/scheduler_mp.c:1207-1288 | keeps the invariant if and only if the thread is not ready; a ready thread ends up in no queue |
| SmpScheduler.OnePlace | rt-thread/src/scheduler_mp.c:259-385 | a ready thread is in one list of one queue, given by binding and priority; a running thread on one core and in none |
| SmpScheduler.Run | rt-thread/src/scheduler_mp.c:165-649 | any interleaving of operations of all cores in which no ready thread is bound is a run of the effects above, and the invariant holds after it |
| TimerRows.NearComparisons | rt-thread/src/timer.c:433-440 | the comparisons on wrapped ticks are those of the true ticks while they lie within half the range |
| TimerRows.ComparisonRange | rt-thread/src/timer.c:437-440 | exactly how far apart two ticks may lie for the ordering test to be right |
| TimerRows.InsertAtUpper | rt-thread/src/timer.c:419-448 | plain sorted insertion puts a timer behind all due no later and before the first due later |
| TimerRows.KeepInsert | rt-thread/src/timer.c:419-468 | inserting below shows in the row above exactly if the timer reaches up |
| TimerRows.KeepRemove | rt-thread/src/timer.c:180-188 | unlinking from every row keeps each row the filter of the one below |
| Timers.TimerList.FindHeads | rt-thread/src/timer.c:416-448 | the search through the rows ends in every row behind all timers due no later |
| Timers.HeightExactly | rt-thread/src/timer.c:457-468 | a timer is linked k rows above the bottom if and only if the insert counter is a multiple of the k-th power of 4 |
| Timers.TimerList.Climb | rt-thread/src/timer.c:457-468 | the bits of the insert counter decide in how many rows the timer is linked |
| Timers.TimerList.Link | rt-thread/src/timer.c:416-468 | for every number of rows and every counter the bottom row is that of plain sorted insertion, equals first in first out, and each row stays a filter of the row below |
| Timers.TimerList.Start | rt-thread/src/timer.c:398-473 | refused while the callback runs; otherwise the timer is removed, gets its deadline and is inserted |
| Timers.TimerList.StartTimer | rt-thread/src/timer.c:482-538 | keeps the invariant: the list sorted by true deadline across wrap-around |
| Timers.TimerList.Stop | rt-thread/src/timer.c:548-575 | an error exactly if not active; removes that timer only |
| Timers.TimerList.FireHead | rt-thread/src/timer.c:689-741 | one turn of the check: one-shot timers leave, periodic ones are inserted with the next deadline |
| Timers.FiredAreDue | rt-thread/src/timer.c:696-700 | the timers fired are exactly those due, most overdue first |
| Timers.AfterFacts | rt-thread/src/timer.c:689-745 | what a check leaves pending and with which deadlines |
| Timers.NeverSettles | rt-thread/src/timer.c:689-745 | with a due timer of period zero some timer is due after any number of turns of the check |
| Timers.EndsExactly | rt-thread/src/timer.c:689-745 | a check with deadlines in range comes to an end if and only if no due timer has period zero |
| Timers.TimerList.Check | rt-thread/src/timer.c:670-750 | a check at a fixed tick ends, fires exactly the due timers in deadline order, and leaves nothing due |
| TimerRun.ChecksInRange | rt-thread/src/timer.c:670-700 | if no deadline is half the tick range or more before the check, nor before the next deadlines it sets, and no due period is zero, the check is one of deadlines in range |
| TimerRun.AlwaysInRange | rt-thread/src/timer.c:670-700 | with no delay zero and a check after every tick, or with delays and the ticks between two checks together less than half the range, every check is one of deadlines in range |
| TimerRun.Fired | rt-thread/src/timer.c:689-745 | a check after some ticks fires exactly the timers whose deadline has come, in order, each once, and restarts the periodic ones |
| TimerRun.Run | rt-thread/src/timer.c:398-750 | any run of starts, stops and advances of the tick by any amount with a check each is a run of a table of deadlines, up to the first check with a deadline out of range: for delays from 0 to half the tick range and any number of wrap-arounds each timer fires at the first check at or after its deadline and at no other; under the conditions of the row above there is no such check |
| Blocks.AllocShape | rt-thread/src/mem.c:312-352 | what is handed out of a block is enough and too little to leave room for another block; the rest, if any, is a free block of at least the smallest size behind it |
| Blocks.FreeUndoesAlloc | rt-thread/src/mem.c:305-359 | freeing a block just allocated gives back the same blocks |
| Blocks.FreeAll | rt-thread/src/mem.c:119-157 | freeing all blocks in any order leaves one |
| Blocks.CoalesceKeeps | rt-thread/src/mem.c:119-157 | coalescing keeps the tiling, leaves no two free neighbours, and changes no used block |
| SmallMem.SmallMemory.constructor | rt-thread/src/mem.c:206-231 | one free block |
| SmallMem.SmallMemory.PlugHoles | rt-thread/src/mem.c:119-157 | merges with free neighbours on both sides, keeps links and the lowest-free pointer, and no byte handed out |
| SmallMem.SmallMemory.Search | rt-thread/src/mem.c:303-310 | starting at the lowest free block and stopping at the loop bound finds the lowest fit of the whole heap |
| SmallMem.RoundedIsLeast | rt-thread/src/mem.c:286-290 | a request is rounded to the least multiple of the alignment that holds it and the smallest block |
| SmallMem.SmallMemory.Alloc | rt-thread/src/mem.c:271-389 | NULL exactly if the size is zero or no free block in the whole heap has room for the bytes asked for and the smallest block, otherwise the lowest that has, split or whole, with less than another block to spare; other bytes untouched |
| SmallMem.SmallMemory.AdvanceFree | rt-thread/src/mem.c:363-374 | the lowest-free pointer after its block was taken |
| SmallMem.SmallMemory.Free | rt-thread/src/mem.c:497-539 | the block is freed and merged; tiling, links, lowest-free pointer and accounts kept |
| SmallMem.SmallMemory.Shrink | rt-thread/src/mem.c:438-464 | a much smaller size cuts the block and merges the rest |
| SmallMem.SmallMemory.Move | rt-thread/src/mem.c:466-487 | otherwise allocate, copy and free: the first min(old, new) bytes are kept |
| SmallMem.SmallMemory.Realloc | rt-thread/src/mem.c:403-488 | all cases, with the bytes of the block and of all other blocks; the block afterwards is enough with less than another block to spare |
| SmallMem.Accounts | rt-thread/src/mem.c:346-358 | used and free extents together are the heap with one header more |
| SmallMem.AllocThenFree | rt-thread/src/mem.c:271-539 | restores blocks, accounts and lowest-free pointer |
| SmallMem.FreeEverything | rt-thread/src/mem.c:497-539 | freeing everything in any order leaves one free block and no use |
| Allocator.GainBlock | rt-thread/src/mem.c:271-389 | one more used block is one more live pointer, and all other bytes stay |
| Allocator.LoseBlock | rt-thread/src/mem.c:497-539 | one used block less is one live pointer less |
| Allocator.ReallocSteps | rt-thread/src/mem.c:403-488 | a block that became another is a pointer that became another, with the first min(old, new) bytes as they were written |
| Allocator.WriteBlock | rt-thread/src/mem.c:376-389 | a write through a live pointer reaches no other pointer's bytes |
| SmallMemRun.ReallocOwned | rt-thread/src/mem.c:403-488 | every outcome of a reallocation as the client sees it |
| SmallMemRun.Run | rt-thread/src/mem.c:170-539 | any run of allocations, frees, reallocations and writes is a run of the simple allocator: new pointers are not in use, every live pointer has the bytes last written there, used blocks and live pointers are the same |
| FreeLists.FrontFirst | rt-thread/src/memheap.c:643-680 | merging in front first or behind first gives the same blocks |
| MemHeap.AllocState | rt-thread/src/memheap.c:235-312 | blocks, free list and free bytes after an allocation belong together |
| MemHeap.FreeState | rt-thread/src/memheap.c:643-708 | and after a free, in all four merge cases |
| MemHeap.BorderState | rt-thread/src/memheap.c:440-480 | and after the border to a free block behind moved |
| MemHeap.CutOffState | rt-thread/src/memheap.c:513-575 | and after a block was cut |
| MemHeap.MemoryHeap.constructor | rt-thread/src/memheap.c:79-154 | one free block, two headers in use, which is the maximum so far |
| MemHeap.MemoryHeap.Search | rt-thread/src/memheap.c:217-232 | the first block of the free list that is large enough |
| MemHeap.MaximumGrows | rt-thread/src/memheap.c:289-297 | comparing with the stored maximum at every rise of use keeps it the maximum of all uses there have been |
| MemHeap.RefusesMeans | rt-thread/src/memheap.c:187-232 | a request is refused exactly if no free block has room for the bytes asked for and the smallest block, or if it is rounded to all free bytes or more |
| MemHeap.AllocTwice | rt-thread/src/memheap.c:264-347 | if what is left of a block that was cut serves the next request, that is handed out directly behind the first |
| MemHeap.FreeThenAlloc | rt-thread/src/memheap.c:594-719 | a block given back that joins none in front is handed out again to the next request it serves |
| MemHeap.MemoryHeap.Alloc | rt-thread/src/memheap.c:187-347 | refused exactly when; otherwise the first block of the free list that is large enough is handed out, split or whole, with less than another block to spare; the new free list; the stored maximum is the greatest use there has ever been |
| MemHeap.MemoryHeap.FreeBlock | rt-thread/src/memheap.c:636-708 | the blocks and the free list after a free with its merges; the list holds every free block once |
| MemHeap.MemoryHeap.Free | rt-thread/src/memheap.c:594-719 | keeps the invariant: no two free neighbours, free list exact, free bytes the sum of free payloads, the maximum that of all uses |
| MemHeap.MemoryHeap.Grow | rt-thread/src/memheap.c:419-480 | growing into the free block behind keeps all bytes and the invariant; the new blocks, free list and maximum |
| MemHeap.MemoryHeap.Shrink | rt-thread/src/memheap.c:513-575 | shrinking merges the rest with a free block behind; the new blocks and free list |
| MemHeap.MemoryHeap.Move | rt-thread/src/memheap.c:490-499 | a move is an allocation, a copy and a free: blocks, free list and maximum are theirs, the bytes of the block and of all others are kept; without a fit nothing changes |
| MemHeap.MemoryHeap.Resize | rt-thread/src/memheap.c:412-585 | a size other than the block has: which of growing, moving and shrinking it is, and its effect on blocks, free list, maximum and bytes |
| MemHeap.MemoryHeap.Realloc | rt-thread/src/memheap.c:362-585 | when it stays put by the test on 32-bit sizes, when it fails without any change, the blocks, the free list and the maximum after it, the bytes kept, and that the block is not larger than asked for by more than the smallest block with its header |
| MemHeap.NextSizeRange | rt-thread/src/memheap.c:417-431 | with the size of the block behind in a 32-bit variable the test is right for every size asked for if and only if that block is below 2 GB |
| MemHeap.OvergrowsExactly | rt-thread/src/memheap.c:417-480 | exactly which sizes larger than both blocks pass the test, that the new header then lies behind both, and that there are none in a heap of up to 2 GB |
| MemHeap.GrowsPastPool | rt-thread/src/memheap.c:417-480 | a heap of little more than 2 GB in which, after one allocation, a request for 8 GB passes the test and its header would lie outside the heap |
| MemHeap.RefusedExactly | rt-thread/src/memheap.c:205-206 | a request is refused exactly if nothing fits or it asks for all free bytes |
| MemHeap.WholeHeapRefused | rt-thread/src/memheap.c:205-206 | a call for the whole block of a fresh heap is refused although the block fits |
| MemHeap.AllocThenFree | rt-thread/src/memheap.c:187-719 | restores blocks and free bytes |
| MemHeap.FreeEverything | rt-thread/src/memheap.c:594-719 | freeing everything in any order leaves one free block spanning the heap |
| MemHeapRun.ResizedOwned | rt-thread/src/memheap.c:362-585 | a reallocation that succeeds, grown, shrunk or moved, as the client sees it |
| MemHeapRun.NeverBreaks | rt-thread/src/memheap.c:417-480 | in a heap of up to 2 GB no reallocation is one that grows too far |
| MemHeapRun.Run | rt-thread/src/memheap.c:79-719 | the same refinement of the simple allocator for the memory heap, up to the first reallocation that grows too far; a heap of up to 2 GB has none |
| SlabPages.Canonical | rt-thread/src/slab.c:257-299 | sorted, disjoint, maximally coalesced run lists with the same pages are the same list |
| SlabPages.PageList.Alloc | rt-thread/src/slab.c:216-246 | first fit; removes exactly the pages returned; NULL exactly if no run is long enough |
| SlabPages.PageList.Free | rt-thread/src/slab.c:257-299 | adds exactly the pages given, joined with the runs they touch |
| SlabPages.AllocThenFree | rt-thread/src/slab.c:216-299 | restores the list itself |
| SlabZones.ClassOf | rt-thread/src/slab.c:411-469 | every request below the limit gets a class below 72 with chunks large enough, and class and chunk size determine each other |
| SlabZones.LeastClass | rt-thread/src/slab.c:411-469 | every request below the limit gets the smallest class whose chunks hold it |
| SlabZones.ClassesDiffer | rt-thread/src/slab.c:411-469 | larger classes have larger chunks |
| SlabZones.PickZoneSize | rt-thread/src/slab.c:362-365 | the zone size is one of three |
| SlabZones.AtLeastTwo | rt-thread/src/slab.c:362-370 | every class below the limit has at least two chunks per zone |
| SlabZones.ChunkPlace | rt-thread/src/slab.c:612-636 | every chunk lies behind the zone header and inside the zone |
| SlabZones.PowerClass | rt-thread/src/slab.c:411-469 | a request for a power of two from 8 to 8192 gets a chunk of exactly that size |
| SlabZones.PowerAligned | rt-thread/src/slab.c:627-632 | a chunk whose size is a power of two is aligned to it, counted from the start of the heap, if and only if the size is at most a page or the page of the zone is a multiple of it |
| SlabZones.PageAligned | rt-thread/src/slab.c:112-113 | a page, and so a large block, is aligned to a power of two if and only if that is at most the page size or divides the page number times the page size |
| SlabZones.LastBackFirstOut | rt-thread/src/slab.c:546-575 | chunks never used are taken first, in the order of their addresses; after that the one given back last, which undoes its return |
| SlabZones.TakeKeeps | rt-thread/src/slab.c:546-575 | taking a chunk, never used or given back, hands out one that is not live and keeps the counts |
| SlabZones.ReturnKeeps | rt-thread/src/slab.c:788-801 | giving a live chunk back keeps the counts |
| Slab.LiveDisjoint | rt-thread/src/slab.c:538-652 | two live chunks never overlap |
| Slab.LargeApart | rt-thread/src/slab.c:507-531 | a live chunk never overlaps a large block |
| Slab.LeadsToZone | rt-thread/src/slab.c:596-603 | the page table leads from every live chunk to its zone header |
| Slab.ZoneCounts | rt-thread/src/slab.c:538-652 | free chunks are those never used plus those given back; a zone is listed exactly if it has one; at most two zones in reserve |
| Slab.SlabHeap.TakeChunk | rt-thread/src/slab.c:546-583 | a chunk of the first zone of the list becomes live, the next never used or the one given back last; a full zone leaves its list |
| Slab.SlabHeap.NewZone | rt-thread/src/slab.c:593-652 | a zone from the reserve or on new pages, its first chunk live; fails exactly if there is neither |
| Slab.SlabHeap.AllocLarge | rt-thread/src/slab.c:507-531 | pages of its own, recorded in the table |
| Slab.SlabHeap.Alloc | rt-thread/src/slab.c:490-655 | refused exactly when; otherwise exactly one more live chunk or block, of the smallest class or number of pages that is large enough, all others where they were with all their bytes |
| Slab.FewHeldBack | rt-thread/src/slab.c:805-852 | when nothing is live, no more than one zone of a class is held back from the pages, besides those in reserve |
| Slab.SlabHeap.FreeChunk | rt-thread/src/slab.c:780-852 | exactly that chunk is no longer live, an empty zone goes to the reserve or back to the pages, and no byte of anything live changes |
| Slab.SlabHeap.Free | rt-thread/src/slab.c:738-853 | the table tells a chunk from a large block; exactly that one is freed and all others keep their bytes |
| Slab.SlabHeap.Realloc | rt-thread/src/slab.c:668-727 | the same chunk if the chunk size is the same, otherwise a move with as many bytes as fit; when it fails and that nothing changes then; all others keep place and bytes |
| Slab.RecordsElsewhere | rt-thread/src/slab.c:490-853 | run heads, zone headers and the table of pages lie on no byte of anything live |
| Slab.LinkElsewhere | rt-thread/src/slab.c:786-788 | the link stored in a freed chunk reaches nothing that is live |
| Slab.MoveDone | rt-thread/src/slab.c:691-722 | allocate, copy, free: the new block has the front of the old bytes and nothing else changed |
| Slab.TwoApart | rt-thread/src/slab.c:490-655 | any two live chunks or large blocks lie apart |
| Slab.HeapSound | rt-thread/src/slab.c:490-655 | everything live has its own bytes, inside the heap |
| SlabRun.ClientResizes | rt-thread/src/slab.c:668-727 | a reallocation that succeeds as the client sees it |
| SlabRun.Run | rt-thread/src/slab.c:324-853 | the same refinement of the simple allocator for the slab: any run of allocations, frees, reallocations and writes; all allocations at any time lie in the heap and share no byte; of every class at most one zone without a live chunk is kept |

## Left out

- Mutex ceilings, `rt_mutex_delete`, `rt_mutex_detach`, `rt_mutex_drop_thread` and `RT_THREAD_CTRL_CHANGE_PRIORITY`: they change priorities or ownership without the propagation the invariants rely on.
- The retry loop of `rt_mutex_release` on several cores, signals, RT_USING_SMART wakeups and interruptible waits: one processor, timeouts delivered as one step.
- Semaphores, memory pools, work queues, the object system, the idle thread, console and boot code.
- Resetting mailboxes and message queues, message priorities (RT_USING_MESSAGEQUEUE_PRIORITY).
- Time slices: a yield is a step of its own, the countdown of `remaining_tick` is not modelled.
- Hardware context switching, interrupt nesting, inter-processor interrupts and spinlocks: the steps of the multi-core scheduler run under the scheduler lock.
- Software timers and callbacks that start or stop timers during a check.
- Timers.TimerList.Check: needs all deadlines near the current tick and near the next deadlines of the periodic timers that are due, where comparisons of wrapped ticks are right, and no due timer with period zero, for which the source's loop does not end (`Timers.EndsExactly`).
- The use counters of the slab, RT_MEMHEAP_BEST_MODE, locking of the heaps, memory tracing.
- The rounding of start address and size when a heap is set up: the models begin with aligned ones.
- The doubly linked lists of memheap.c are sequences: the updates of single pointers are not modelled there (the small memory algorithm has its links).
- MemHeap.MemoryHeap.Realloc: what the heap is like after a reallocation has grown past the block behind is not modelled, since the new header overwrites what lies there; `MemHeap.OvergrowsExactly` says which calls these are, and all others are modelled.
- MemHeap.MemoryHeap.Resize: the same.
- MemHeapRun.Run: stops before the first such call.
- TimerRun.Run: stops before the first check that is not one of deadlines in range.
- Overflow of address and size arithmetic in the allocators.
