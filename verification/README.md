# A verified model of the XINU kernel

This project models the parts of a small single-processor XINU whose meaning
the code settles, and proves what they promise over every run. Nothing is
executed; all results are statements checked by the Dafny verifier.

    dafny verify dfyconfig.toml

Interrupts are off inside a system call, so a call is one step up to the point
where it switches processes. What a switched-out process still has to do is
kept in its table entry and is a step of its own when it runs again.

Each component has three layers. A `Spec` module gives the state and every
operation as functions on values. Lemma modules prove the properties of runs.
A `Tables` module has a class over the arrays and variables the C code uses;
its methods change them in place, and each is proved to have the effect and the
result of its function or, for the pools, to lead to the state of the model's
step.

| component | modules |
|---|---|
| queues, scheduler, semaphores, messages, sleeping, process life | `KernelSpec`, `KernelInv`, `KernelSched`, `KernelSems`, `SleepQueue`, `KernelClock`, `KernelProcs`, `KernelRun`, `KernelStates`, `KernelFields`, `KernelTokens`, `KernelFair`, `KernelSwitch`, `KernelFifo`, `KernelMail`, `KernelLost`, `QTable`, `KernelTables` |
| free-list allocator and stacks | `HeapSpec`, `HeapLaws`, `HeapTheorems`, `HeapRuns`, `HeapTables`, `HeapOver` |
| network boot | `BootSpec`, `BootRuns`, `BootLockstep`, `BootTimers`, `BootTables` |
| UDP checksum | `UdpSum` |
| buffer pools | `PoolSpec`, `PoolRuns`, `PoolCalls`, `PoolTables` |
| terminal input line | `TtyLine`, `TtyReads`, `TtyTables` |
| generic priority queue | `GpqSpec`, `GpqRaces`, `GpqTables` |
| boot page tables and page faults | `PageSpec`, `PageRuns`, `PageSharing`, `PageContents`, `PageTables` |
| shared | `Ints` (32-bit integers), `Lists` |

## Where the code keeps less than it seems to promise

Each of these is proved as an exact condition, with an input on the other side.

- `getmem` of more than 2^32 - 8 bytes rounds the size to 0 and grants memory
  that stays on the free list (`HeapTheorems.GetMemTakes`).
- `freestk` undoes `getstk` if and only if the size rounds to the same multiple
  of 4 and of 8 (`HeapTheorems.GetStkFreeStk`).
- `freemem`'s two-neighbour check is right for every free list if and only if
  block + size does not pass 2^32 (`HeapTheorems.ChecksRightExactly`).
- `getstk` of more than 2^32 - 4 bytes rounds the size to 0 too
  (`HeapTheorems.GetStkTakes`).
- `freemem` of more than 2^32 - 8 bytes, or of a block that reaches 2^32, is
  accepted wherever the address is not strictly inside a free block. The free
  list survives if and only if a free block ends there and is not lengthened
  (`HeapTheorems.FreeMemOver`, `HeapOver.SurvivesExactly`). Where one starts, its
  header is linked to itself and searches never end (`HeapOver.LoopForever`).
- The boot heap keeps room for every 8-byte header over every run if and only if
  the kernel ends 1 to 4 above a multiple of 8 and the last address is 0 to 3
  above one (`HeapRuns.BootHeadersExactly`). On the 16 MB machine it is not
  (`HeapTheorems.BootSliver`), and then a header can lie in a live stack
  (`HeapRuns.HeaderInStack`).
- `mkpool` keeps a pool whose `screate` failed, and `getbuf` ignores what `wait`
  returns: a pool never follows its null link if and only if its semaphore is
  live (`PoolRuns.NeverNullExactly`). The monitor's own pool has none: it is made
  before `sysinit` marks every semaphore slot free (`PoolRuns.BootPoolFails`),
  so that `nbgetbuf` drops every frame `rcv_frame` reads.
- The generic queues test their count before they lock. They keep their promises
  if and only if every test still holds when the lock is taken
  (`GpqRaces.SoundExactly`).
- A sleeper with no delay left at the head of the clock queue, as `recvtim(0)`
  makes, costs everybody behind it a tick (`KernelClock.TickExact`); a run from
  boot shows it (`KernelLost.TickLost`).
- Delays that do not fit in an `int` wrap (`KernelClock.DozeDeadlines`), and so
  does a semaphore count at its maximum (`KernelFifo.SignalExactly`).
- `boot_xinu` announces the request state before it sets the block number and
  the byte count. A first block that arrives in between is answered as if a DATA
  packet had been lost (`BootLockstep.LostDataExactly`) or stored but not
  counted (`BootRuns.BootsTheFile`, `BootRuns.MiscountsAnyFile`). What is stored
  is right in both cases.
- A DATA packet that is neither the block expected nor its neighbour stops the
  retransmission timer, and the boot hangs in silence (`BootTimers.StrayStalls`).
  The five repeats of an acknowledgement are for the whole transfer; progress
  does not renew them (`BootTimers.SilentServerFails`).
- Block numbers are read into a signed short, so 32767 blocks is the most a
  boot can load (`BootRuns.BootableExactly`). A longer file can be taken for
  complete early if and only if its last block carries the number of an earlier
  one (`BootRuns.BootsWholeExactly`).
- `mon_udpcksum` rejects every correct datagram of 65519 octets or more
  (`UdpSum.CorrectAccepted`). An IP packet cannot carry one; only the length
  field makes the case reachable.
- In raw mode no character ever wakes a reader, and two lines typed before a read
  are signalled once (`TtyReads.RawNeverWakes`, `TtyReads.SecondLineWaits`).
- A page fault without a backing store maps the page all the same, and records
  negative page numbers from 2^31 on (`PageContents.FaultLoads`,
  `PageContents.VpnoExactly`).
- `initialize_pt` clears as many entries as there are frames (255), not as there
  are entries (1024); every page is in a frame of its own if and only if memory
  was clear there at boot (`PageSharing.CleanExactly`).

## What is assumed

- The null process never calls a routine that blocks (sys/initialize.c:61-66).
- A process has finished the call it was switched out of before it makes the
  next, interrupts still being off; the clock interrupt can come between any two
  calls.
- The interrupt handler that counts deferred ticks in `clkdiff` is not in the
  repository (sys/clkint.S does not test `defclk`); the model lets the
  environment add to `clkdiff` at any time.
- Delays and semaphore counts of a run fit in 32 bits; the lemmas named above
  say exactly what happens when they do not.
- Clients free only blocks they hold, and in runs of the allocator stack sizes
  round alike to 4 and to 8 (`HeapTheorems.GetStkFreeStk` and
  `HeapRuns.OddStackLeaves` say what happens otherwise).
- A boot server has one fixed file to send, any block at any time, any number of
  times, or an error. For `BootLockstep` it is the sender of section 2 of
  RFC 1350.
- Callers of `freebuf` return buffers they were given and leave the header word
  alone; `getmem` gives `mkpool` memory that belongs to no other pool.
- Programs store only into mapped pages, and a page read from a backing store
  may hold anything.

## Model

| member | source | states |
|---|---|---|
| `KernelRun.RunInv` | sys/resched.c:28-56 | Over every run of create, resume, suspend, wait, signal, signaln, sreset, sdelete, screate, send, receive, recvtim, the sleeps, chprio, kill, setnok, clock ticks, stopclk and strtclk, the invariant holds: each process is on the one list its state names or on none, ready keys equal priorities, delays are nonnegative, semaphore counts match their queues, the highest priority runs |
| `KernelRun.StepInv` | sys/kill.c:43-58 | Each single call, and each remainder of a call after a switch, keeps that invariant |
| `KernelRun.BootInv` | sys/initialize.c:141-213 | The tables sysinit leaves satisfy it |
| `KernelRun.OneListPerProcess` | sys/queue.c:18-39 | From boot on, a process is on a list if and only if its state says so, and on no other |
| `KernelRun.CountsWaiters` | sys/wait.c:26-33 | From boot on, a used semaphore's count is nonnegative exactly when its queue is empty, and otherwise minus the number of waiters |
| `KernelRun.HighestRuns` | sys/resched.c:28-56 | From boot on, the running process is marked current, no ready process has a higher priority, and getlast never finds the ready list empty |
| `KernelRun.SignalNInv` | sys/signaln.c:24-28 | n signals in one call keep the invariant |
| `KernelStates.StatesAsExpected` | sys/wakeup.c:15-19 | For every call and every process, the state afterwards (ready and running not told apart) is the one an independent table gives: who is woken, by which call, under which condition, and that nobody else moves |
| `KernelStates.SignalNStates` | sys/signaln.c:25-28 | signaln readies exactly the first min(n, waiters) processes of its queue |
| `KernelStates.ResetStates` | sys/sreset.c:26-31 | sreset readies exactly the processes waiting on the semaphore |
| `KernelStates.DeleteStates` | sys/sdelete.c:25-34 | sdelete readies exactly the processes waiting on the semaphore |
| `KernelStates.SendStates` | sys/send.c:23-30 | send wakes its target exactly when it waits for a message and has none |
| `KernelStates.TickStates` | sys/clkint.S:19-24 | A clock interrupt wakes exactly the sleepers whose deadline it reaches |
| `KernelStates.StrtClkStates` | sys/ssclock.c:31-50 | strtclk wakes exactly the sleepers due within the deferred ticks |
| `KernelStates.FinishStates` | sys/kill.c:43-58 | The rest of kill frees its victim and changes no other state |
| `KernelFields.FieldsAsExpected` | sys/wait.c:26-36 | For every call, every process and every semaphore: priority, semaphore waited for, return value kept for a waiter, next of kin, unfinished business, count and use of the semaphore, deferred ticks and where the next slot search starts are those of one table; whoever the table does not name is unchanged |
| `KernelFields.AnswersAsExpected` | sys/send.c:18-32 | Every call but create and screate answers its caller as one table says: SYSERR, OK, an old priority, a message, TIMEOUT, the value kept for the waiter, or nothing until it runs again |
| `KernelFields.NewAnswers` | sys/screate.c:22-29 | create and screate answer k if and only if k is the first free slot of their downward circular search, and SYSERR otherwise |
| `KernelFields.CreatedIsEmpty` | sys/create.c:57-64 | A new process is suspended and holds no message |
| `KernelFields.NewSemFirst` | sys/screate.c:41-50 | newsem returns m if and only if m is the first free slot it comes to, downwards from nextsem and round |
| `KernelTokens.CountOver` | sys/wait.c:26 | Over every run without a reset or deletion of it a semaphore's count is the one before, plus accepted signals, minus accepted waits, plus waiters killed |
| `KernelTokens.TokensConserved` | sys/signal.c:24-25 | Over every such run waits that got through, at once or released by a signal, plus units left are exactly the units there at first plus the signals |
| `KernelTokens.NeverOverdrawn` | sys/screate.c:22-29 | From boot, for a semaphore created with count n: waits that got through never outnumber n and the signals since, and units left make up the difference |
| `KernelTokens.WaitReturns` | sys/wait.c:30-33 | A process that blocked in wait is told DELETED if and only if its semaphore was deleted while it was queued there, over whatever run lies in between, and OK otherwise |
| `KernelSwitch.SwitchExactly` | sys/resched.c:28-56 | For every call: the processor changes hands if and only if the call ends in resched and its caller cannot go on or another process that can run has at least its priority; the time slice starts anew exactly then and is otherwise what the call leaves of it |
| `KernelSwitch.TickSlice` | sys/clkint.S:25-27 | The end of a clock interrupt shortens a time slice longer than one tick by one and switches nobody; at the last tick a ready process of the same priority gets the processor with a full slice |
| `KernelSwitch.TicksBounded` | sys/clkint.S:25-27 | Over every run through which a process waits with nobody of higher priority, ticks use up the slices of those ahead and of the running process |
| `KernelSwitch.SliceBound` | sys/resched.c:80 | No time slice is ever longer than QUANTUM |
| `KernelSwitch.RunsWithin` | sys/clkint.S:25-27 | From boot, with k processes ahead, a ready process has run before the (k + 1) * QUANTUM-th finished clock tick, unless it leaves the ready list, its own priority is changed, or somebody of higher priority is ready or runs |
| `KernelFair.StepFair` | sys/insert.c:16-23 | Every call but a chprio of the process itself leaves no more processes ahead of a ready process, and fewer if it switches, as long as nobody of higher priority is ready or running |
| `KernelFair.BoundedWaiting` | sys/resched.c:48-56 | Over every run a process still waiting on the ready list, whose own priority is not changed, has seen at most as many switches as processes were ahead of it, as long as nobody of higher priority is ready or running |
| `KernelFair.RunsAfter` | sys/getitem.c:27-35 | From boot, with k processes ahead of it, a process runs no later than the switch after the k-th, unless it leaves the ready list, its own priority is changed, or somebody of higher priority is ready or runs |
| `KernelFair.TailInsert` | sys/insert.c:16-23 | A newcomer is placed behind everybody of its own priority or more |
| `KernelFair.ReschedAhead` | sys/resched.c:48-56 | A switch removes exactly one of the processes ahead |
| `KernelFifo.OldestFirst` | sys/queue.c:18-24 | Over every call a semaphore's queue loses processes only from the front and gains at most one at the end; only kill takes one out of turn |
| `KernelFifo.SignalExactly` | sys/signal.c:24-25 | signal keeps the counts right if and only if the count can still grow: at 2147483647 it wraps to a negative count with nobody waiting |
| `KernelMail.MessagesOnce` | sys/send.c:18-32 | Over every run a process lives through, the messages sent to it while it held none, kill's notices included, are those receive and recvtim returned to it, in order, plus at most one still held: none lost, none twice |
| `KernelMail.MailStep` | sys/receive.c:20-27 | The same for each single call; a message is accepted exactly when the receiver lives and holds none |
| `KernelMail.SendExactly` | sys/send.c:18-24 | send answers OK if and only if the receiver exists, is no free slot and holds no message, whatever it is doing; otherwise it answers SYSERR and changes nothing |
| `KernelSched.ReschedInv` | sys/resched.c:28-56 | resched turns consistent tables into ones where the highest priority runs |
| `KernelSched.NullIsThere` | sys/initialize.c:61-66 | Because the null process is always running or ready, resched always has somebody to run |
| `KernelSched.SuspendInv` | sys/suspend.c:20-35 | suspend keeps the invariant, of a ready process and of the caller itself |
| `KernelSched.ResumeInv` | sys/resume.c:19-26 | resume keeps the invariant |
| `KernelSched.ChPrioInv` | sys/chprio.c:20-36 | chprio keeps the invariant: a ready process is re-keyed, a running one may lose the processor |
| `KernelSched.ReadySettled` | sys/ready.c:16-23 | ready keeps the invariant for a process on no list |
| `KernelSems.WaitInv` | sys/wait.c:21-36 | wait keeps the invariant; the caller joins the queue exactly when the count was not positive |
| `KernelSems.WaitWraps` | sys/wait.c:26 | wait blocks exactly when the count is not positive; the decrement cannot wrap |
| `KernelSems.SignalOneSettled` | sys/signal.c:24-25 | One increment keeps every count equal to its waiters |
| `KernelSems.SignalInv` | sys/signal.c:20-27 | signal keeps the invariant while the count does not overflow |
| `KernelSems.SignalLoopSettled` | sys/signaln.c:25-27 | n increments raise the count by n and keep every count right |
| `KernelSems.DrainCore` | sys/sreset.c:28-29 | The drain loop empties the semaphore's queue and changes no other but the ready list |
| `KernelSems.SResetInv` | sys/sreset.c:22-33 | sreset keeps the invariant |
| `KernelSems.SDeleteInv` | sys/sdelete.c:21-36 | sdelete keeps the invariant |
| `KernelSems.NewSemFinds` | sys/screate.c:41-50 | newsem returns a free slot, or SYSERR when the slots it looked at are all taken |
| `KernelSems.SCreateFinds` | sys/screate.c:22-29 | screate of a nonnegative count fails if and only if every slot is in use |
| `KernelSems.SCreateInv` | sys/screate.c:22-29 | screate keeps the invariant: a free slot has no waiters |
| `KernelProcs.SendInv` | sys/send.c:18-32 | send keeps the invariant in all three cases of the receiver's state |
| `KernelProcs.ReceiveInv` | sys/receive.c:19-27 | receive keeps the invariant |
| `KernelProcs.FinishReceive` | sys/receive.c:24-27 | A process back from a blocking receive does have a message, and that is what it returns |
| `KernelProcs.RecvTimInv` | sys/recvtim.c:20-38 | recvtim keeps the invariant when the delay fits in an int |
| `KernelProcs.NewPidFinds` | sys/create.c:114-120 | newpid returns a free slot, or SYSERR when the slots it looked at are all taken |
| `KernelProcs.NewPidFirst` | sys/create.c:114-120 | newpid returns p if and only if p is the first free slot it comes to, downwards from nextproc and round |
| `KernelProcs.CreateFinds` | sys/create.c:37-60 | With a stack and a positive priority create fails if and only if no slot is free; otherwise it suspends a new process of that priority in a slot that was free |
| `KernelProcs.CreateInv` | sys/create.c:37-102 | create keeps the invariant |
| `KernelProcs.KillInv` | sys/kill.c:23-40 | kill up to its notice keeps the invariant |
| `KernelProcs.RemoveInv` | sys/kill.c:43-58 | The rest of kill keeps it in every state of the victim |
| `KernelProcs.RemoveWaiter` | sys/kill.c:48-52 | Killing a waiter gives its count back, so the count still equals the waiters |
| `KernelProcs.FinishInv` | sys/resched.c:92-94 | What a switched-out process still has to do keeps the invariant |
| `SleepQueue.InsertDOwn` | sys/insertd.c:16-23 | insertd gives the new sleeper exactly the deadline asked for |
| `SleepQueue.InsertDOthers` | sys/insertd.c:24-25 | insertd moves no other sleeper's deadline |
| `SleepQueue.InsertDPlace` | sys/insertd.c:16-23 | A newcomer goes in front of exactly the sleepers due no earlier than it |
| `SleepQueue.InsertDDeltas` | sys/insertd.c:16-25 | insertd keeps every delay nonnegative and the total within an int |
| `SleepQueue.UnsleepOthers` | sys/unsleep.c:29-33 | unsleep moves no other sleeper's deadline |
| `SleepQueue.UnsleepDeltas` | sys/unsleep.c:29-33 | unsleep keeps every delay nonnegative |
| `SleepQueue.DueOrdered` | sys/insertd.c:16-25 | With nonnegative delays the clock queue is in the order of its deadlines |
| `SleepQueue.MakeUpDue` | sys/ssclock.c:39-46 | The catch-up loop turns every deadline T into max(0, T - M) |
| `SleepQueue.MakeUpDeltas` | sys/ssclock.c:39-46 | The catch-up loop keeps every delay nonnegative |
| `SleepQueue.ExpiredDue` | sys/wakeup.c:15-16 | The expired front of the delta list is exactly the sleepers whose deadline is 0 |
| `KernelClock.DozeDeadlines` | sys/sleep10.c:23-26 | The caller's deadline is n times the unit if and only if that product fits in an int; every other sleeper keeps its deadline |
| `KernelClock.DozeDeltas` | sys/sleep10.c:23 | The delta list stays nonnegative if and only if the wrapped product is nonnegative |
| `KernelClock.SleepOverflows` | sys/sleep10.c:23 | The largest count of tenths that does not overflow is 21474836 |
| `KernelClock.SleepInv` | sys/sleep10.c:17-30 | A sleep that fits keeps the invariant, for each of the three units |
| `KernelClock.UnsleepDeadlines` | sys/unsleep.c:29-39 | On the tables: leaving the clock queue early moves nobody else's deadline |
| `KernelClock.WakeLoopOrder` | sys/wakeup.c:15-16 | wakeup readies the expired sleepers one by one in the order of the clock queue |
| `KernelClock.WakeLoopDeadlines` | sys/wakeup.c:15-16 | wakeup's loop readies exactly the sleepers with deadline 0 and leaves the others' deadlines alone |
| `KernelClock.WakeupInv` | sys/wakeup.c:15-19 | wakeup keeps the invariant; slnempty and sltop are right afterwards whatever they were |
| `KernelClock.WakeupDeadlines` | sys/wakeup.c:15-19 | After wakeup a sleeper with no delay left can run, any other is exactly as far away as before |
| `KernelClock.StrtClkDeadlines` | sys/ssclock.c:35-50 | strtclk with M deferred ticks wakes exactly the sleepers with deadline at most M and brings the rest M closer |
| `KernelClock.StrtClkOrder` | sys/ssclock.c:35-48 | The catch-up readies exactly the sleepers with deadline at most M, one by one in the order of the deadlines they had before it |
| `KernelClock.StrtClkInv` | sys/ssclock.c:31-50 | strtclk keeps the invariant, slnempty equal to the queue being nonempty included |
| `KernelClock.TickDeadlines` | sys/clkint.S:19-24 | One clock interrupt takes one tick off every deadline, or none at all if the first sleeper has no delay left |
| `KernelClock.TickExact` | sys/clkint.S:19-24 | A tick brings every remaining sleeper one tick closer if and only if the first one had a delay left, or every deadline was 0 |
| `KernelClock.RecvTimZeroLoses` | sys/recvtim.c:25-29 | After recvtim(0) the next tick takes nothing off any other deadline, in every state it can be called in |
| `KernelLost.TickLost` | sys/recvtim.c:25-29 | A legal run from boot of six calls, ending in recvtim(0), after which the next tick leaves another sleeper its five ticks |
| `KernelClock.TickInv` | sys/clkint.S:7-31 | The clock interrupt keeps the invariant |
| `QTable.LinksInverse` | h/q.h:12-17 | On every list, from head to tail, qnext and qprev are inverse to each other |
| `QTable.LinkInKeeps` | sys/insert.c:19-23 | Linking an entry in keeps every list's chain and adds it at that place of its own |
| `QTable.LinkOutKeeps` | sys/queue.c:36-38 | Unlinking an entry keeps every list's chain and removes it from its own |
| `QTable.SpliceKeeps` | sys/queue.c:18-23 | The four link assignments of enqueue, insert and insertd have the effect of that insertion |
| `KernelTables.Kernel.constructor` | sys/initialize.c:141-213 | The arrays set up queue by queue are the abstract boot tables |
| `KernelTables.Kernel.NewQueue` | sys/newqueue.c:17-25 | A new list has linked sentinels with the smallest and largest key |
| `KernelTables.Kernel.Enqueue` | sys/queue.c:18-24 | The four array writes append the process to the list and touch nothing else |
| `KernelTables.Kernel.Dequeue` | sys/queue.c:36-39 | The two array writes remove the process from its list and touch nothing else |
| `KernelTables.Kernel.Insert` | sys/insert.c:16-24 | The search and link writes insert the process in key order, before equal keys |
| `KernelTables.Kernel.GetFirst` | sys/getitem.c:15-18 | Removes and returns the first process, EMPTY for an empty list |
| `KernelTables.Kernel.GetLast` | sys/getitem.c:31-34 | Removes and returns the last process |
| `KernelTables.Kernel.InsertD` | sys/insertd.c:16-26 | The search and writes insert into the delta list |
| `KernelTables.Kernel.Unsleep` | sys/unsleep.c:23-39 | Array version of unsleep |
| `KernelTables.Kernel.Resched` | sys/resched.c:28-81 | Array version of resched |
| `KernelTables.Kernel.Ready` | sys/ready.c:16-23 | Array version of ready |
| `KernelTables.Kernel.Suspend` | sys/suspend.c:20-35 | Array version of suspend, its result included |
| `KernelTables.Kernel.Resume` | sys/resume.c:19-26 | Array version of resume, its result included |
| `KernelTables.Kernel.ChPrio` | sys/chprio.c:20-36 | Array version of chprio, returning the old priority |
| `KernelTables.Kernel.Wait` | sys/wait.c:21-36 | Array version of wait |
| `KernelTables.Kernel.Signal` | sys/signal.c:20-27 | Array version of signal, for every count, the largest included |
| `KernelTables.Kernel.SignalN` | sys/signaln.c:20-30 | Array version of signaln, loop included, for every count |
| `KernelTables.Kernel.SReset` | sys/sreset.c:22-33 | Array version of sreset, drain loop included |
| `KernelTables.Kernel.SDelete` | sys/sdelete.c:21-36 | Array version of sdelete, drain loop included |
| `KernelTables.Kernel.NewSem` | sys/screate.c:41-50 | The circular search over nextsem |
| `KernelTables.Kernel.SCreate` | sys/screate.c:22-29 | Array version of screate |
| `KernelTables.Kernel.Send` | sys/send.c:18-32 | Array version of send |
| `KernelTables.Kernel.Receive` | sys/receive.c:19-23 | Array version of receive up to the switch |
| `KernelTables.Kernel.RecvTim` | sys/recvtim.c:20-30 | Array version of recvtim up to the switch, for every delay, those that wrap included |
| `KernelTables.Kernel.Sleep` | sys/sleep10.c:17-30 | Array version of sleep10, sleep100 and sleep1000, for every delay, those that wrap included |
| `KernelTables.Kernel.Wakeup` | sys/wakeup.c:15-19 | Array version of wakeup, loop included |
| `KernelTables.Kernel.CatchUp` | sys/ssclock.c:39-46 | The catch-up loop on the key fields |
| `KernelTables.Kernel.StrtClk` | sys/ssclock.c:31-50 | Array version of strtclk |
| `KernelTables.Kernel.StopClk` | sys/ssclock.c:17 | Array version of stopclk |
| `KernelTables.Kernel.ClkInt` | sys/clkint.S:19-24 | Array version of the clock interrupt up to wakeup's return |
| `KernelTables.Kernel.NewPid` | sys/create.c:114-120 | The circular search over nextproc |
| `KernelTables.Kernel.Create` | sys/create.c:37-102 | Array version of create's table entry |
| `KernelTables.Kernel.SetNok` | sys/setnok.c:18-25 | Array version of setnok |
| `KernelTables.Kernel.Kill` | sys/kill.c:23-40 | Array version of kill up to the notice |
| `KernelTables.Kernel.Remove` | sys/kill.c:43-58 | Array version of the rest of kill |
| `KernelTables.Kernel.Finish` | sys/resched.c:92-94 | Array version of what follows a switch |
| `HeapLaws.Unique` | sys/freemem.c:32-43 | A sorted list of nonempty blocks, no two touching, is the only such list covering its set of bytes |
| `HeapLaws.TakeFirstSplits` | sys/getmem.c:23-38 | The first fit takes exactly its bytes out of the free set and leaves the list canonical, or there is no block with room |
| `HeapLaws.CutTopSplits` | sys/getstk.c:36-40 | Cutting a block's top takes exactly those bytes out of the free set |
| `HeapLaws.ReleaseSplits` | sys/freemem.c:32-43 | Releasing a clear block adds exactly its bytes and leaves the list canonical, merged on both sides |
| `HeapTheorems.AcceptsExact` | sys/freemem.c:23-31 | Checking only the two neighbours is equivalent to the block being disjoint from every free block |
| `HeapTheorems.ChecksRightExactly` | sys/freemem.c:27-28 | That equivalence holds for every free list if and only if block + size does not pass 2^32 |
| `HeapTheorems.FreeMemExact` | sys/freemem.c:18-45 | For a size that rounds up below 2^32 and a block that ends below it: freemem accepts if and only if the range tests pass and the block is clear; it then adds exactly that interval, otherwise the list is unchanged |
| `HeapTheorems.ReleaseCommutes` | sys/freemem.c:23-43 | Freeing two disjoint blocks in either order gives the same list |
| `HeapTheorems.ReleaseRestores` | sys/freemem.c:23-43 | Putting back what was taken out restores the list exactly |
| `HeapTheorems.WhichBlock` | sys/getmem.c:23-37 | getmem grants the bottom of the first free block with room, getstk the top of the last |
| `HeapTheorems.GetMemFreeMem` | sys/getmem.c:18-39 | getmem takes exactly the rounded size, and freemem of the block restores the free list; it fails only when no block has room |
| `HeapTheorems.GetMemTakes` | sys/getmem.c:22-29 | The block granted leaves the free list if and only if the size is at most 2^32 - 8; above that it rounds to 0 and getmem grants memory that stays free |
| `HeapTheorems.FreeMemOver` | sys/freemem.c:21-45 | For every other size and block: freemem accepts if and only if the address is in range and not strictly inside a free block; what it leaves is a canonical list if and only if a free block ends there and stays as it was or is shortened, and a loop if and only if one starts there; no byte is freed |
| `HeapOver.SurvivesExactly` | sys/freemem.c:32-43 | On the headers: after such a call they spell some free list if and only if a free block ended at the address and was not lengthened; words at address 0 are read only if a block is made to end at 2^32 with none behind |
| `HeapOver.LoopForever` | sys/freemem.c:35-43 | After a call at the start of a free block a walk along the links comes to that block and stays there, its length being the rounded size: a search for more never ends |
| `HeapTheorems.GetStkSplits` | sys/getstk.c:20-44 | Up to 2^32 - 4 bytes getstk takes its rounded size off the top of a block with room, or no block has room |
| `HeapTheorems.GetStkTakes` | sys/getstk.c:24-41 | The topmost byte granted leaves the free list if and only if the size is at most 2^32 - 4; above that it rounds to 0 and the stack granted stays free |
| `HeapTheorems.GetStkFreeStk` | h/mem.h:26-29 | getstk then freestk restores the free list if and only if the size rounds to the same multiple of 4 and of 8 |
| `HeapTheorems.BootCanon` | sys/initialize.c:148-161 | The two boot blocks form a canonical list |
| `HeapTheorems.BootWhole` | sys/initialize.c:148-158 | The lower boot block is a whole number of 8-byte units if and only if the kernel ends 1 to 4 above a multiple of 8, the upper one if and only if maxaddr is 0 to 3 above one |
| `HeapTheorems.LeftoverHeader` | sys/getmem.c:26-36 | From any list of word-sized blocks that hold their headers, getmem leaves one that does if and only if the block it cuts is not 4 bytes longer than the rounded request |
| `HeapTheorems.StkLeftoverHeader` | sys/getstk.c:36-40 | The same of getstk, which leaves the bottom of the last block that fits |
| `HeapTheorems.BootSliver` | sys/getmem.c:30-34 | With maxaddr 7 mod 8, as on the 16 MB machine, a single request leaves a 4-byte free block with an 8-byte header |
| `HeapRuns.RunKeeps` | sys/getmem.c:30-36 | Over every run of getmem, getstk, freemem and freestk by clients that free what they hold, as long as every free block has had room for its header: free plus live bytes are constant, live blocks are disjoint from each other and from the free list, and no header lies in a live block |
| `HeapRuns.RunHeaders` | sys/getmem.c:30-36 | From a list of whole 8-byte units every free block has that room over every such run |
| `HeapRuns.HeaderInStack` | sys/getmem.c:30-34 | From a block of an odd number of 4-byte words two requests leave a 4-byte free block whose length word is the lowest word of a live stack |
| `HeapRuns.BootStarts` | sys/initialize.c:148-161 | The heap sysinit sets up starts such runs, and is whole units exactly under the conditions of BootWhole |
| `HeapRuns.PrivateStarts` | paging/vcreate.c:49-52 | A private heap of 1 to 256 pages starts such runs and is whole units |
| `HeapRuns.BootHeadersExactly` | sys/initialize.c:148-161 | Every run from the boot heap keeps every header if and only if the kernel ends 1 to 4 above a multiple of 8 and maxaddr is 0 to 3 above one; otherwise one named request leaves 4 bytes |
| `HeapRuns.OddStackLeaves` | sys/getstk.c:36-40 | Without the rounding condition on stack sizes no heap keeps its headers: one getstk leaves 4 bytes |
| `HeapTables.Heap.constructor` | sys/initialize.c:148-161 | The header words sysinit writes are the two-block boot list |
| `HeapTables.Heap.Private` | paging/vcreate.c:49-52 | A private heap starts as one block |
| `HeapTables.Heap.GetMem` | sys/getmem.c:18-39 | The walk over the in-memory headers has the effect and result of the list function; vgetmem is the same code |
| `HeapTables.Heap.GetStk` | sys/getstk.c:20-44 | The walk keeping the last fit, then shrinking or unlinking it, has the effect and result of the list function |
| `HeapTables.Heap.FreeMem` | sys/freemem.c:18-45 | For every block and size: the answer is that of the checks; on refusal nothing is written; on acceptance the headers spell the list with the block released and merged, or what PutOver says when the block is empty or reaches 2^32 |
| `HeapTables.Heap.FindFit` | sys/getstk.c:25-31 | The walk ends with the last block that has room and the one before it |
| `HeapTables.Heap.FindGap` | sys/freemem.c:23-26 | The search stops between the last block below and the first not below |
| `HeapTables.Heap.SplitBottom` | paging/vgetmem.c:34-40 | The leftover's header is written inside the block and linked in its place |
| `HeapTables.Heap.Put` | sys/freemem.c:32-43 | The assignments after the checks, as one function of the headers; vfreemem is the same code |
| `HeapTables.PutPlain` | sys/freemem.c:32-43 | Of an accepted block below 2^32 that function makes the list with the block released and merged on both sides |
| `HeapTables.PutOverSpells` | sys/freemem.c:32-43 | Of an accepted block that is empty or reaches 2^32 it makes the grown, extended, looped or stray chain of PutOver |
| `BootRuns.BootsTheFile` | mon/montftp.c:47-83 | Whatever datagrams are lost, repeated or reordered and wherever the interrupts fall between statements, for every file whose last block shares its number with no earlier one a client may expect: on reaching BOOT_DONE the memory from BOOTPLOC is the file; the byte count is its length if and only if no nonempty first block of the last request was delivered between the statements that set the block number and clear the byte count |
| `BootRuns.BootsWholeExactly` | mon/montftp.c:38-47 | Every boot that gets done has the whole file if and only if that number is unambiguous: fewer than 65536 blocks, or a last number of 32768 or more, with which no boot gets done; for any other file some run stops early |
| `BootRuns.RunInv` | mon/montftp.c:63-66 | For a file of fewer than 65536 blocks the stored prefix is 512 * (block - 1) bytes of the file at every step of every run |
| `BootRuns.BootableExactly` | mon/montftp.c:38-47 | A file of any size can be booted exactly if and only if it has fewer than 32768 blocks, the range of the signed short |
| `BootRuns.MiscountsAnyFile` | mon/monboot.c:75-81 | Every nonempty file can be booted with a byte count below its length: its first block may arrive after the block number is set and before the byte count is cleared |
| `BootRuns.BoundedTries` | mon/monboot.c:36-68 | However the network behaves, a boot sends at most four BOOTP and four read requests |
| `BootTimers.DataExactly` | mon/montftp.c:47-83 | A data packet while a request is out: which number is answered, what is stored, counted and expected next, when the transfer is done, and whether the timer runs, by its number and length |
| `BootTimers.RepliesExactly` | mon/monudp.c:45-72 | A BOOTP answer or a refusal does something in its own phase only, and stops the timer there |
| `BootTimers.TimerExactly` | mon/montimer.c:12-40 | The clock interrupt: when the timeout counts as reached, and what is then tried again, sent again or given up in each phase |
| `BootTimers.QuietUntil` | mon/monboot.c:58-62 | Over every silent run shorter than the timeout a waiting client does nothing |
| `BootTimers.StrayStalls` | mon/monudp.c:63-66 | A data packet that is neither the block expected nor its neighbour stops the timer: over every silent run after it the client neither sends nor gives up |
| `BootTimers.SilentBootpFails` | mon/monboot.c:36-53 | In silence four BOOTP requests go out, at seconds 0, 2, 5 and 9, and the boot returns at second 14 |
| `BootTimers.SilentTftpFails` | mon/monboot.c:64-81 | The same for four read requests that nobody answers |
| `BootTimers.Resends` | mon/montimer.c:22-28 | Every two seconds of silence the last acknowledgement is sent again, as long as the request has repeats left |
| `BootTimers.SilentServerFails` | mon/montimer.c:22-34 | With r of the request's five repeats used up, whatever progress was made since, a server that falls silent fails the boot after 5 - r more |
| `BootTimers.EndsExactly` | mon/monboot.c:89-97 | At the switch a finished transfer jumps to the image and a failed one returns; nothing happens after that |
| `BootLockstep.LockStep` | mon/montftp.c:52-71 | For one request to a lock-step sender, over every run: client and server block numbers differ by at most one, and every acknowledgement sent, the timer's included, names a block already stored |
| `BootLockstep.LostDataExactly` | mon/montftp.c:55-56 | The branch for a lost DATA packet is taken if and only if block 1 arrives while boot_xinu has sent the request but not yet set the block number |
| `BootLockstep.LostDataHappens` | mon/monboot.c:75-78 | That state is reached in one statement |
| `BootLockstep.CurrentAnswered` | mon/montftp.c:52-71 | Once the request is set up, the server's current block is answered with its own number and is then stored |
| `BootLockstep.NeverStuck` | mon/monboot.c:75-81 | From every state of a served request, the statements that set it up included, some run completes the transfer |
| `BootTables.MonBoot.constructor` | mon/monboot.c:31-32 | boot_xinu's initial state, whatever an earlier attempt left |
| `BootTables.MonBoot.TftpIn` | mon/montftp.c:40-83 | The handler over the monitor's variables and memory has the effect and result of the model function |
| `BootTables.MonBoot.BlkCopy` | mon/montftp.c:64 | The copy writes exactly the block at memloc |
| `BootTables.MonBoot.TftpAck` | mon/montftp.c:161-207 | An acknowledgement is logged and the timer restarted |
| `BootTables.MonBoot.BootpIn` | mon/monudp.c:41-57 | The BOOTP half of mon_udp_in |
| `BootTables.MonBoot.UdpIn` | mon/monudp.c:59-73 | The TFTP half of mon_udp_in |
| `BootTables.MonBoot.TimerTick` | mon/montimer.c:12-40 | mon_timer, after the clock has advanced |
| `BootTables.MonBoot.SwitchStatement` | mon/monboot.c:34-68 | The head of the main loop with its retry counting |
| `BootTables.MonBoot.BodyStatement` | mon/monboot.c:45-81 | Each statement of the loop body and of mon_tftp_req that assigns shared state |
| `UdpSum.ZeroExactly` | mon/monudp.c:98-118 | Up to 65518 octets mon_udpcksum returns 0 if and only if the one's complement sum of pseudo-header and datagram (RFC 768) is all ones |
| `UdpSum.CorrectAccepted` | mon/monudp.c:106 | A correct datagram is accepted if and only if it has at most 65518 octets: beyond, hs2net drops the carry of 17 + length |
| `UdpSum.LongNeverPasses` | mon/monudp.c:106 | No correct datagram above that length is accepted; only the length field can announce one, since an IP packet carries less |
| `UdpSum.FilledPasses` | mon/monudp.c:98-118 | A datagram whose checksum field is filled as RFC 768 says is correct at every length, so correct ones of every length exist, and passes if and only if it has at most 65518 octets |
| `UdpSum.FoldExactly` | mon/monudp.c:115-118 | For every sum the loops can form, two folds and the complement give 0 exactly for nonzero multiples of 65535 |
| `UdpSum.LoadIsSwapped` | mon/monudp.c:113-114 | Summing little-endian loads agrees with 256 times the network-order sum modulo 65535 |
| `UdpSum.AllOnesExactly` | mon/monudp.c:98-118 | The end-around-carry sum is all ones exactly for nonzero multiples of 65535 |
| `UdpSum.UdpCksum` | mon/monudp.c:98-118 | The in-place pad and both loops compute that value; the 32-bit accumulator never overflows |
| `UdpSum.AddLoads` | mon/monudp.c:113-114 | The datagram loop in 32-bit arithmetic adds exactly the loads |
| `PoolRuns.ChainLength` | sys/mkpool.c:33-41 | In every interleaving at the points where interrupts are on, as long as no null link has been followed: a pool with a live semaphore has a free chain as long as max(count, 0) plus waiters granted but not resumed plus buffers pushed but not signalled, the next step follows no null link of it, and a negative count is minus the waiters |
| `PoolRuns.NeverNullExactly` | sys/getbuf.c:24-32 | While some process can call getbuf: no later run follows a null link if and only if every pool has a live semaphore |
| `PoolRuns.GetsFail` | sys/getbuf.c:25-30 | A pool without a live semaphore hands out the k buffers of its chain, and the get after the k-th without a free follows the null link |
| `PoolRuns.BootPoolFails` | sys/mkpool.c:37 | The pool of 16 made before sysinit frees the semaphore slots: whatever screate answered, 17 gets without a free follow the null link, and nbgetbuf, for which scount answers SYSERR, gets nothing |
| `PoolCalls.MakeExactly` | sys/mkpool.c:25-42 | mkpool makes a pool if and only if 2 <= bufsiz <= 131072, 1 <= numbufs <= 256, fewer than 20 pools exist and getmem granted the block; its chain is every buffer in order |
| `PoolCalls.GetExactly` | sys/getbuf.c:25 | getbuf on a live pool waits, last in the queue, if and only if the count is used up, and lowers the count either way |
| `PoolCalls.NbGetExactly` | sys/getbuf.c:53-64 | nbgetbuf on a live pool takes the first buffer if and only if the count is positive, and otherwise changes nothing |
| `PoolCalls.SignalExactly` | sys/freebuf.c:30 | Giving a buffer back raises the count and grants the process that has waited longest |
| `PoolCalls.PopExactly` | sys/getbuf.c:29-30 | A granted process takes the first buffer of the chain |
| `PoolCalls.GetFreeRestores` | sys/freebuf.c:23-30 | getbuf then freebuf of the buffer restores the pool and everything else exactly |
| `PoolCalls.FreedIsHandedOn` | sys/freebuf.c:23-30 | A buffer freed while others wait is the one the longest waiter gets |
| `PoolRuns.HandedOutOnce` | sys/getbuf.c:24-32 | As long as no null link has been followed: a buffer about to be returned is held by nobody, on no chain, in no other process's hands, and belongs to the pool asked |
| `PoolRuns.AllReturned` | sys/freebuf.c:23-30 | As long as no null link has been followed: when all buffers are back and no process is inside, each chain holds exactly its pool's buffers, and a live semaphore counts them |
| `PoolRuns.UnlinkInv` | sys/getbuf.c:29-30 | A process past a live pool's wait finds a buffer on the chain; with or without one the step keeps the invariant |
| `PoolRuns.StepInv` | sys/getbuf.c:53-64 | Each step of getbuf, nbgetbuf, freebuf and mkpool, with whatever screate answered, and the boot loop that frees the slots, keep the invariant |
| `PoolTables.BufferPools.Unlink` | sys/getbuf.c:29-30 | Taking the first buffer through bpnext removes it, and only it, from its pool's chain, as the step of the model does |
| `PoolTables.BufferPools.Store` | sys/getbuf.c:32 | Writing a header of a buffer off the chains disturbs no chain |
| `PoolTables.BufferPools.FreeBuf` | sys/freebuf.c:23-28 | The header names the pool; the buffer becomes the first of that chain, as in the model, or nothing changes for a bad header |
| `PoolTables.BufferPools.MkPool` | sys/mkpool.c:25-42 | mkpool adds a pool whose chain is exactly the buffers cut from the block, and stores what screate answered untested, or changes nothing |
| `PoolTables.BufferPools.LinkBuffers` | sys/mkpool.c:37-39 | The linking loop writes a chain through all buffers, in order, ending in null |
| `TtyLine.LinesKept` | tty/ttyiin.c:127-134 | Whatever is typed and read afterwards, what readers were given and every line up to its newline reaches the readers as entered; the count of tty_isema never passes 1 |
| `TtyLine.DelWordMaximal` | tty/ttyiin.c:160-175 | delword removes exactly the longest suffix of the last character's kind, not crossing a newline, and nothing if the line ends in one |
| `TtyLine.IinChars` | tty/ttyiin.c:25-56 | An input character appends one character, removes a suffix without newlines, or leaves the line alone |
| `TtyLine.KindsExactly` | tty/ttyiin.c:149 | Words are runs of blanks, of slashes, or of anything else |
| `TtyReads.WakesExactly` | tty/ttyiin.c:51-55 | The semaphore is raised, if it is not up, by exactly the characters that are stored outside raw mode and are end-of-line, end-of-file or typed in cbreak mode |
| `TtyReads.CharsExactly` | tty/ttyiin.c:23-50 | Which characters are stored, when the line is full, and what erase and word erase leave |
| `TtyReads.FlagsExactly` | tty/ttyiin.c:38-48 | When the end-of-file flag is set, when the owner is interrupted and when the line is shown again |
| `TtyReads.ReadExactly` | tty/ttyread.c:19-42 | A read waits, reports the end of the file once, or takes as many characters as asked and there from the front |
| `TtyReads.LineIsRead` | tty/ttyiin.c:50-55 | A line of plain characters typed on an empty line with room, then the end-of-line character: a read of enough length returns exactly that line |
| `TtyReads.EarlyReadWaits` | tty/ttyread.c:31 | Before the end-of-line character, without cbreak, a read waits |
| `TtyReads.EraseUndoes` | tty/ttyiin.c:31-33 | Erase takes back a plain character |
| `TtyReads.WordUndoes` | tty/ttyiin.c:34-36 | Word erase takes back a word typed behind something else |
| `TtyReads.RawNeverWakes` | tty/ttyiin.c:27-30 | In raw mode no run of keys and reads ever gives a reader anything once the semaphore is down: the raw case returns before the signal |
| `TtyReads.LinesLeftWait` | tty/ttyiin.c:51-55 | Once the semaphore is down no read gets anything, however many whole lines are waiting, before a character that wakes is typed |
| `TtyReads.SecondLineWaits` | tty/ttyread.c:30-43 | Two lines typed before a read are signalled once: after a read of the first line the next read waits although the second is there |
| `TtyTables.Tty.InputChar` | tty/ttyiin.c:68-76 | The ring append is an append to a bounded sequence, dropped when full |
| `TtyTables.Tty.DeleteChar` | tty/ttyiin.c:127-134 | The ring delete drops the last character unless it is a newline |
| `TtyTables.Tty.DeleteWord` | tty/ttyiin.c:160-175 | The ring walk has that effect and stops in every case, also when delchar makes no progress |
| `TtyTables.Tty.Drain` | tty/ttyread.c:32-40 | The drain loop returns a prefix and leaves the rest |
| `TtyTables.Tty.Input` | tty/ttyiin.c:25-56 | The interrupt-level dispatch over the ring has the effect of the line function |
| `GpqSpec.RunStable` | sys/gpq.c:61-74 | Over every run of insertions and removals the queue is the accepted and not yet taken items, a permutation sorted by descending key, and within a key in order of arrival |
| `GpqRaces.SoundExactly` | sys/gpq.c:46-54 | Over every interleaving of tests and locked parts: the count stays in range, nothing is written past the arrays, the queue stays sorted and stable, every item is returned once and no look sees one that is gone, if and only if every lock is taken while the test before it still holds |
| `GpqRaces.OneAtATimeSound` | sys/gpq.c:97-105 | With no other call on the queue between a test and its lock all of that holds over every run |
| `GpqRaces.TwoEnqsOverrun` | sys/gpq.c:46-73 | Two calls of enq past the test for the last slot write past the arrays |
| `GpqRaces.TwoDeqsTakeOne` | sys/gpq.c:97-113 | Two calls of deq past the test for the last item return it twice and leave the count at -1, which headq then takes for a queue with something on it |
| `GpqRaces.HeadAfterDeq` | sys/gpq.c:133-143 | headq past its test while the last item is taken returns an item that is gone |
| `GpqRaces.SeeAfterDeq` | sys/gpq.c:165-183 | seeq past its test while the queue is emptied starts over and returns nothing |
| `GpqSpec.HeadIsBest` | sys/gpq.c:107-113 | The item deq takes is the earliest arrival of the greatest key |
| `GpqSpec.StableUnique` | sys/gpq.c:61-74 | Sortedness and the order within each key leave one possible queue |
| `GpqSpec.InsertLast` | sys/gpq.c:61-72 | An insertion joins the end of its key's items and moves no others |
| `GpqSpec.SeesAll` | sys/gpq.c:175-185 | From -1, as many calls of seeq as there are items list the queue in order; the next returns nothing and starts over |
| `GpqTables.Gpq.constructor` | sys/gpq.c:213-222 | A new queue is empty with nothing seen |
| `GpqTables.Gpq.Enq` | sys/gpq.c:44-80 | A call with nothing in between: inserts in place and returns the remaining capacity, or returns -1 and changes nothing when full |
| `GpqTables.Gpq.Deq` | sys/gpq.c:95-118 | A call with nothing in between: removes and returns the head, or nothing from an empty queue |
| `GpqTables.Gpq.Headq` | sys/gpq.c:131-149 | A call with nothing in between: returns the head and changes nothing; below a count of 0 it returns what is left in the first slot |
| `GpqTables.Gpq.Seeq` | sys/gpq.c:163-191 | A call with nothing in between: one look at the next item, or a reset when the count is below 0 |
| `GpqTables.Gpq.MayEnq` | sys/gpq.c:46-47 | The test before the lock |
| `GpqTables.Gpq.EnqLocked` | sys/gpq.c:58-74 | The locked part, a count below zero reset first: the shift loop inserts in place |
| `GpqTables.Gpq.DeqLocked` | sys/gpq.c:107-113 | The locked part on whatever the count is by then: returns the first slot, shifts the rest down, lowers the count |
| `GpqTables.Gpq.SeeLocked` | sys/gpq.c:175-185 | The locked part on whatever the count is by then |
| `GpqTables.Gpq.Scan` | sys/gpq.c:61-64 | The scan from the tail stops at the insertion place |
| `PageRuns.IdentityAlways` | sys/initialize.c:217-248 | From boot, after any run of process creations, page faults and stores into pages, every process translates every address below 16 MB to itself |
| `PageRuns.RunInv` | paging/pfint.c:65-113 | Over every run: the global tables are untouched, every directory's entries name tables mapped through that entry, every process has its own directory |
| `PageRuns.BootInv` | sys/initialize.c:217-245 | sysinit gets frames 0 to 3 for the global tables and 4 for the null process, whatever memory held |
| `PageRuns.GlobalNext` | sys/create.c:148-152 | The frames sysinit is handed are the ones allocate_pd takes for granted |
| `PageRuns.ScanIsUnused` | paging/frame.c:51-59 | A frame the scan finds is no directory and no directory refers to it |
| `PageSharing.ScanIsUnmapped` | paging/frame.c:51-59 | Nor is it in any page table of a process, as long as tables are clear beyond what initialize_pt clears |
| `PageSharing.CleanExactly` | paging/pfint.c:14-31 | Every page above 16 MB is in a frame of its own in every run from boot if and only if the words past the 255th of the free frames were clear in memory at boot |
| `PageSharing.NoSharingEver` | paging/pfint.c:94-113 | From boot with clear memory past word 255 of the free frames, after any run, two different pages above 16 MB, of one process or two, are never in one frame |
| `PageSharing.FirstFaultExactly` | paging/pfint.c:14-31 | The first fault through an empty directory entry gets a frame of its own if and only if its table entry was among the 255 cleared or happened to be clear |
| `PageSharing.LeftoverMapped` | paging/pfint.c:92-95 | Otherwise the page is mapped to whatever frame memory named before it became a table |
| `PageSharing.PageWhere` | paging/pfint.c:104-113 | A mapped page is in a frame marked as a page and entered through that very table entry |
| `PageContents.FaultLoads` | paging/pfint.c:94-127 | A fault that ends well has put the page, as read from the backing store, into a frame that was unmapped, and the address translates to it; one that finds no backing store has mapped it all the same, on the words the frame held |
| `PageContents.NothingElse` | paging/pfint.c:50-131 | No word of memory changes but the directory entry and the table entry made, the words cleared in a new table, and the page brought in |
| `PageContents.TwoFramesDo` | paging/pfint.c:50-131 | With two unmapped frames every fault is served |
| `PageContents.PresentExactly` | paging/pfint.c:63-93 | A fault finds the page present if and only if its address can be translated or its new table's leftover words say so |
| `PageContents.PageStays` | paging/pfint.c:94-127 | From clean memory, over every run of creations, faults and stores to other frames, a page stays in its frame with the same words |
| `PageContents.LoadedStays` | paging/pfint.c:123 | From boot: the words read from the backing store are still there after any such run |
| `PageContents.RefCounts` | paging/pfint.c:110 | From boot, after any run, the reference count of every page table is the number of pages brought in through it |
| `PageContents.VpnoExactly` | paging/pfint.c:109 | The page number recorded is the page's own if and only if the address is below 2^31; above, a signed division records a negative number |
| `PageContents.AllocateExactly` | sys/create.c:123-154 | A new process gets the first unmapped frame as its directory, with the four global tables and nothing else, and no other frame changes |
| `PageTables.Paging.constructor` | paging/frame.c:17-26 | init_frm leaves every frame unmapped |
| `PageTables.Paging.GetFrm` | paging/frame.c:51-59 | The scan finds the first unmapped frame |
| `PageTables.Paging.MapGlobal` | sys/initialize.c:223-244 | One turn of the boot loop |
| `PageTables.Paging.FillIdentity` | sys/initialize.c:230-243 | The inner loop writes the identity table |
| `PageTables.Paging.SysInit` | sys/initialize.c:222-245 | The tail of sysinit builds the boot page tables |
| `PageTables.Paging.AllocatePd` | sys/create.c:123-154 | A directory with the four global tables and nothing else, or no change without a frame |
| `PageTables.Paging.InitializePt` | paging/pfint.c:14-31 | Clears 255 entries and leaves the other 769 |
| `PageTables.Paging.NeedTable` | paging/pfint.c:63-91 | A table is entered where the directory has none |
| `PageTables.Paging.NeedPage` | paging/pfint.c:93-127 | A page is entered where the table has none |
| `PageTables.Paging.Pfint` | paging/pfint.c:50-131 | The fault handler has the effect and result of the model function |

## Left out

- KernelTables.Kernel.Create: leaves out stack contents, file descriptors, names and the process count; whether `getstk` finds room is a parameter, and `allocate_pd` is modelled with the page tables.
- KernelTables.Kernel.Kill: leaves out closing devices, the process count and `xdone`; it ends at the notice to the next of kin, and the rest is a step of its own.
- KernelTables.Kernel.Remove: leaves out freeing the stack and `release_bs`.
- Context-switch assembly, interrupt vectors, stack checks: a switch is the change of `currpid` and of two states.
- Sleep-queue delays are unbounded integers in the model; under the invariant they are proved to stay within an `int`.
- Header words of the heap are one cell per address instead of four bytes each; overlapping writes of unaligned headers are therefore not modelled.
- KernelTables.Kernel.ClkInt: ends where `wakeup` returns; the preemption count that follows is in Finish.
- The pools' `bpmaxused` statistics, and the memory-marking test.
- Terminal echo, rubout output, `reprint`'s output, and `ttyread`'s non-blocking and unallocated cases; a read that would wait is a step that changes nothing.
- Generic queues: allocation and freeing of the table entry. mon/mongpq.c is a near copy.
- Page-table flag bits other than present and write.
- Directories of killed processes are never given back, in the model as in the code.
- Device and network drivers, the monitor's prompt, printing, and generated configuration code.
- The clock's mutual-exclusion semaphore: `clkinit` asks for it before the semaphore table is set up, and the boot loop then marks every slot free, so the boot tables have none in use.
- HeapOver.SurvivesExactly: when a block is made to end at 2^32 and none is behind it, freemem reads the words at address 0; the chain is given up to that block, and what follows depends on those words.
- HeapRuns.RunKeeps: stack sizes round alike to 4 and to 8, and a free block without room for its header ends what is promised, since its length then lies in the memory behind it (HeaderInStack).
- HeapRuns.RunHeaders: stack sizes round alike to 4 and 8, without which OddStackLeaves shows it false.
- HeapTables.Heap.Private: one list head for each heap. In the source nothing sets `vmemlist`, so all processes share one head; and `vcreate` writes the first block's header through the backing store's address while the block itself is at page 4096.
- BootTables.MonBoot.BlkCopy: a block that does not fit the memory is dropped, where the source copies past its end.
- BOOTP parsing, ARP, IP checksums and packet layout: a BOOTP reply is an accept or reject event, and a request or acknowledgement is its block number. Sending always succeeds; the monitor's pool running out of buffers is PoolRuns.BootPoolFails and is not part of the boot model.
- PoolRuns.NeverNullExactly: pool semaphores are modelled by their own count and first-in first-out queue, without priorities, deletion or kill (KernelRun and KernelFifo prove that behaviour of kernel semaphores). A pool whose stored id is later given by `screate` to somebody else counts as one without a semaphore, though its waits would then use that one.
- PoolRuns.StepInv: a process that followed a null link goes no further, where the source would hand out the address behind it.
- GpqTables.Gpq.EnqLocked: on a queue that has filled up since the test the source writes past its arrays; that is the overrun of GpqRaces.TwoEnqsOverrun and not a write here.
- PageRuns.IdentityAlways: covers runs while the scan finds an unmapped frame; a fault that finds none stops where replacement or kill would begin.
- PageTables.Paging.GetFrm: the scan only; page replacement, unmapping and the frame queue are not modelled.
- PageTables.Paging.Pfint: as GetFrm. Whether a backing store is found, and what is read from it, are parameters.
- PageTables.Paging.NeedTable: as GetFrm.
- PageTables.Paging.NeedPage: as GetFrm.
