# A verified model of the Xinu kernel

This project models the core of the Xinu operating system and states what it guarantees, as
Dafny contracts and lemmas. `dafny verify dfyconfig.toml` checks everything.

## What is modelled

**Processes, queues, semaphores, messages and timers.** `KernelState` gives the abstract
state (process, semaphore and pool tables and, per queue, the sequence of process ids) and
one function per system call. A call is a step; where it may switch to another process
inside, the rest of it is the continuation of the process and runs, as a step of its own,
when the process has the CPU again. `KernelSteps.Inv` is the invariant, `KernelSafety.StepInv`
shows that every step keeps it, and the modules `KernelRuns`, `KernelOrder`, `KernelFifo`,
`KernelMessages`, `KernelDefer`, `KernelRoundRobin`, `KernelSlice`, `KernelLives`, `KernelWakeup`
and `KernelPools` draw the conclusions over whole runs. `KernelShape` splits every step into its
effect and at most one `resched`; with it `KernelTables` and `KernelCursors` say what each step does
to every table entry, field by field. `DeltaList` relates the sleep queue to remaining times,
`ReadyOrder` the ready list to who comes before whom. `KernelWitness` holds concrete runs.
The class in `Kernel` is the code itself: `queuetab`, `proctab` and `semtab` as arrays,
intrusive doubly linked queues and their pointer walks. Each of its methods is shown to do
exactly what the abstract function does, through `QueueTable`, which says which sequences a
table of links denotes, and `KernelFacts`.

**Memory.** `FreeList` has the free list as blocks, `Memory` the byte-level meaning and the
round trips, `Heap` the linked list in memory that the code walks. **Buffer pools**: their
interleavings are in the kernel model, their chains in memory in `BufChain`, and the class in
`KernelBuffers` joins the two, so that the pop of a granted `getbuf` is safe on the chains;
`KernelMemory` adds the heap the pools take their memory from.

**Networking and shell.** `Nat`, `NatRules`, `NatFlows`, `NatPorts` and `NatTable` model UDP address translation
(traditional NAPT, section 2.2 of RFC 3022), `Checksum` the Internet checksum with its single
fold, `Lexer` and `Lexan` the command-line lexer.

## Where the code departs from what one expects

- A zero `recvtime` at the head of the sleep queue costs the other sleepers a tick
  (`KernelWitness.ZeroTimeoutWitness`). `KernelWakeup.ExactWakeup` says exactly when a sleeper
  is on time; a delay above 2^31-1, unless it is 2^31, wakes its caller at the next tick
  and delays the others (`KernelLongDelay`).
- `getmem` or `getstk` of one of the seven largest 32-bit sizes rounds to zero and hands out a
  block that stays on the free list, and `freemem` links an empty block (`Memory.GetmemOverflow`,
  `Memory.GetstkOverflow`, `Memory.FreememOverflow`).
- A header stamped by `ip_out` always passes `ip_in`, but is not RFC-correct when the fold
  drops a carry (`Checksum.IpStampRfc`, `Checksum.IpStampNotRfc`); an ICMP message stamped that
  way is rejected (`Checksum.IcmpStampAccepted`).
- A line of 32 tokens followed by a blank is refused as having too many (`Lexer.LexPrinted`).
- The NAT port generator leaves the range 40000 to 49999, because its first increment has no
  range check (`NatPorts.GenuportRange`, `NatPorts.RangeLeftFromBoot`). A reply goes to the
  interface recorded when the flow was opened, not to that of its latest packet
  (`NatFlows.ReplyRoundTrip`, `NatFlows.MovedHost`).
- A process killed after its `getbuf` was granted and before it resumed leaves its buffer on
  the free list with no unit of the count for it; `KernelPools.ExactBalance` says exactly when,
  and `KernelWitness.LostWitness` reaches such a state.

Constants are those of the repository's headers: 100 processes, 100 semaphores, 20 pools,
40 translations, a 300 second timeout, 32 tokens.

## Model

| member | source | states |
|---|---|---|
| `KernelSafety.StepInv` | old-xinu-forwarding-version/system/resched.c:9-47 | Every system call, clock tick and resumed continuation that its caller may make keeps the whole kernel invariant: states and queues agree, ready list keyed and sorted, waiters equal to `-scount`, pending messages and continuations consistent, every pool balanced |
| `KernelRuns.ReachableInv` | old-xinu-forwarding-version/system/initialize.c:154-186 | The invariant holds after every legal sequence of steps from the state boot leaves: in particular a used semaphore has no waiter if `scount >= 0` and exactly `-scount` otherwise, a free one has none |
| `KernelRuns.ReachableAgreement` | old-xinu-forwarding-version/system/kill.c:30-56 | In every reachable state READY means on the ready list, WAIT on the queue of `prsem` and no other, SLEEP/RECTIM on `sleepq`, every other state on no queue, no queue holds a process twice, and exactly `currpid` is CURR (each an if-and-only-if) |
| `KernelRuns.ReachableSchedule` | old-xinu-forwarding-version/system/resched.c:16-45 | In every reachable state outside a deferred attempt the running process has at least the priority of every ready one, the ready list descends, and unless the null process runs it is on the list, so `resched` never dequeues an empty list |
| `KernelSteps.ReschedInv` | old-xinu-forwarding-version/system/resched.c:16-45 | `resched` restores the invariant from any intermediate state in which the caller has already left or kept the CPU |
| `ReadyOrder.EnterJoins` | old-xinu-forwarding-version/system/insert.c:22-34 | Insertion by priority removes nobody, keeps the order of everybody on the list, and puts the newcomer behind everybody of at least its priority |
| `KernelFifo.ReadyOrderStep` | old-xinu-forwarding-version/system/ready.c:24-26 | Over every kernel step, processes that stay ready keep their order, and a newcomer stands behind every ready process of at least its priority |
| `KernelFifo.FairStep` | old-xinu-forwarding-version/system/resched.c:25-40 | The same for all ready processes at once, and whoever gets the CPU in a step was ahead of every process that stays ready, or has more priority |
| `KernelFifo.NoOvertaking` | old-xinu-forwarding-version/system/insert.c:23-25 | Over every run, as long as a process stays ready, no process of at most its priority that was not running or ahead of it gets the CPU or ahead of it |
| `KernelFifo.AtMostOneTurn` | old-xinu-forwarding-version/system/resched.c:25-40 | Over every run, as long as a process stays ready, a process of at most its priority gets the CPU at most once |
| `KernelSlice.SliceStep` | old-xinu-forwarding-version/system/resched.c:38-42 | Every step: `preempt` is QUANTUM if the CPU was handed to another process, one less or a new QUANTUM if the running process completed a tick, and otherwise unchanged |
| `KernelSlice.ReachableSlice` | old-xinu-forwarding-version/system/clkhandler.c:34-37 | In every reachable state `preempt` is QUANTUM less the ticks completed since the CPU was last handed on or the slice restarted, and at least 1 |
| `KernelSlice.SliceTick` | old-xinu-forwarding-version/system/clkhandler.c:34-37 | So the unsigned decrement never wraps: a tick lowers the count by one or, at one, restarts it and reschedules |
| `KernelTables.EntryStep` | old-xinu-forwarding-version/system/suspend.c:25-37 | Every entry of the process table after every step, in all fields: exactly the processes the call blocks, releases, starts, suspends, resumes, sends to or kills change, as stated there, and only `currpid` is CURR |
| `KernelTables.ContStep` | old-xinu-forwarding-version/system/kill.c:28-34 | Every pending continuation after every step: set by the caller of a call that is to be resumed, cleared when it completes, when its process dies and when its entry is given away |
| `KernelTables.SemStep` | old-xinu-forwarding-version/system/semreset.c:21-31 | Every entry of the semaphore table after every step, in both fields: counts, the asked count after reset and creation, free after deletion; a reset or deleted semaphore has an empty queue |
| `KernelTables.PoolStep` | old-xinu-forwarding-version/system/freebuf.c:28-36 | Every buffer pool after every step: the last buffer freed is the first handed out |
| `KernelTables.FirstPidFound` | old-xinu-forwarding-version/system/create.c:107-124 | `newpid` answers the first free entry at or after `nextpid`, cyclically, whichever entries are in use |
| `KernelTables.FirstSemFound` | old-xinu-forwarding-version/system/semcreate.c:34-50 | `newsem` answers the first free semaphore at or after `nextsem`, cyclically |
| `KernelCursors.CursorStep` | old-xinu-forwarding-version/system/create.c:34-39 | `nextpid` and `nextsem` move behind the slot found, also when `create` then refuses the priority, and with no other call; `ndefers` counts the nesting |
| `KernelLives.KillFrees` | old-xinu-forwarding-version/system/kill.c:34-55 | When `kill` completes, the entry of its victim is free, nothing of it is pending, it is on no queue, and nobody else changes other than between running and ready |
| `KernelLives.PopulationRun` | old-xinu-forwarding-version/system/create.c:107-124 | Over every run the process entries in use are those at the start plus those created less those killed |
| `KernelLives.SuspendStops` | old-xinu-forwarding-version/system/suspend.c:25-37 | A ready or running process other than the null process is suspended after `suspend`, everything else in its entry unchanged, and on no queue |
| `KernelLives.SuspendedStays` | old-xinu-forwarding-version/system/resume.c:22-28 | Over every run in which nobody resumes or kills it, a suspended process stays suspended, off every queue and off the CPU |
| `KernelLives.NewProcess` | old-xinu-forwarding-version/system/create.c:44-54 | A new process is suspended; over every run until its entry is given away again it has the priority asked for and its creator as parent, and what it received and what is in its box are exactly the messages accepted since it was created |
| `KernelLives.IdleOnly` | old-xinu-forwarding-version/system/initialize.c:164-173 | In every reachable state outside a deferred attempt the null process runs only when no process is ready |
| `KernelLives.SetsCountStep` | old-xinu-forwarding-version/system/semreset.c:26-31 | After `semreset(s, n)`, and after a `semcreate(n)` that finds s, s has count n and an empty queue, and no other semaphore changed |
| `KernelLives.CountSince` | old-xinu-forwarding-version/system/semcreate.c:20-27 | Over every run since, until the next reset or delete: waits passed or granted plus the remaining positive count equal n plus all signals |
| `KernelLives.DeleteFrees` | old-xinu-forwarding-version/system/semdelete.c:27-32 | A deleted semaphore is free with an empty queue, and no other semaphore changed |
| `KernelRuns.SemEntryStep` | old-xinu-forwarding-version/system/kill.c:45-50 | One step changes the entry of a used semaphore exactly by its own waits and signals, and by one when a waiter of that semaphore is killed |
| `KernelRuns.SemaphoreConservation` | old-xinu-forwarding-version/system/wait.c:29-34 | Over every run without reset or delete, waits passed or granted plus the remaining positive count equal the initial count plus all signals |
| `KernelOrder.OrderStep` | old-xinu-forwarding-version/system/kill.c:45-50 | One step: processes released, then those still waiting, are those waiting before and not killed, then those that arrived |
| `KernelOrder.FirstComeFirstReleased` | old-xinu-forwarding-version/system/signaln.c:28-33 | Over every run, for every semaphore, used or free, deleted or reset: the released processes followed by the remaining queue are the initial queue followed by all arrivals, in order, with exactly the killed waiters left out |
| `KernelOrder.ArrivalOrder` | old-xinu-forwarding-version/system/signal.c:26-28 | Without kills of its waiters the two are equal: release is in arrival order |
| `KernelMessages.MessageStep` | old-xinu-forwarding-version/system/send.c:23-38 | One step: the message returned to a process, then the pending one, are the pending one before, then the one accepted |
| `KernelMessages.Delivery` | old-xinu-forwarding-version/system/receive.c:16-22 | Over every run in which the table slot is not given to a new process, the messages a process received followed by its pending one are exactly those accepted for it, in order, none lost or duplicated |
| `KernelMessages.BlockedReceiver` | old-xinu-forwarding-version/system/recvtime.c:25-43 | A process blocked in RECV or RECTIM has no pending message, and a `receive` that runs again finds one |
| `KernelDefer.DeferredStep` | old-xinu-forwarding-version/system/resched.c:16-19 | Inside a deferral section any permitted call but the outermost STOP leaves `currpid` alone and sets `Defer.attempt` exactly when it reached `resched` |
| `KernelDefer.DeferralSection` | old-xinu-forwarding-version/system/sched_cntl.c:16-43 | For every nested section `currpid` stays until the outermost STOP, which performs one `resched` if any call inside reached it and none otherwise |
| `KernelRoundRobin.RotateStep` | old-xinu-forwarding-version/system/resched.c:25-40 | One `resched` turns the ring of top-priority processes by one place |
| `KernelRoundRobin.RoundRobin` | old-xinu-forwarding-version/system/resched.c:25-40 | After n calls of `resched` alone the CPU is with member n mod k of the ring of k processes tied at top priority |
| `DeltaList.DeltaPosMeaning` | old-xinu-forwarding-version/system/insertd.c:22-30 | The insertion search stops at the first entry whose remaining time exceeds the delay and leaves the delay minus the prefix sum |
| `DeltaList.InsertRemaining` | old-xinu-forwarding-version/system/insertd.c:31-39 | Insertion adds the process with its delay as prefix sum and changes nobody else's remaining time |
| `DeltaList.RemoveRemaining` | old-xinu-forwarding-version/system/unsleep.c:38-49 | Removal leaves everybody else's remaining time as it was |
| `KernelClock.InsertDTime` | old-xinu-forwarding-version/system/insertd.c:22-39 | On the kernel state: `insertd` leaves the process due in exactly its delay, all other sleepers as they were |
| `KernelClock.UnsleepTime` | old-xinu-forwarding-version/system/unsleep.c:38-49 | On the kernel state: `unsleep` takes one process off and leaves all other sleepers as they were |
| `KernelClock.WakeLoopTime` | old-xinu-forwarding-version/system/wakeup.c:13-15 | The release loop takes off exactly the processes due at once, which become ready, and shifts nobody else |
| `KernelWakeup.TickTime` | old-xinu-forwarding-version/system/clkhandler.c:28-30 | A tick lowers every sleeper's remaining time by one and releases those that reach zero, exactly when the head of the list is positive; otherwise it lowers nobody |
| `KernelWakeup.SleeperStep` | old-xinu-forwarding-version/system/clkhandler.c:28-30 | For every step of the kernel: time stands still for each sleeper that the step does not wake early, except at a tick (all delays up to 2^31-1) |
| `KernelWakeup.DelayStep` | old-xinu-forwarding-version/system/sleep.c:40-50 | `sleepms(d)` and a blocking `recvtime(d)` leave the caller asleep, due in d ticks, and nobody else moved, for d up to 2^31-1 |
| `KernelLongDelay.LongDelayWakes` | old-xinu-forwarding-version/system/sleep.c:28-50 | For the unsigned delays above 2^31-1, which `sleepms` accepts, the caller is awake after a single tick exactly when d is not 2^31 |
| `KernelLongDelay.LongDelayOthers` | old-xinu-forwarding-version/system/insertd.c:31-39 | Such a delay above 2^31 makes every sleeper that was there due 2^32-d ticks later than it asked, if the first key can hold that; otherwise the first of them is woken with the caller |
| `KernelWakeup.SleepsOn` | old-xinu-forwarding-version/system/clkhandler.c:28-30 | Over every run a sleeper not woken early has its time less the effective ticks to go, those that found no overdue process at the head of the queue (all delays up to 2^31-1) |
| `KernelWakeup.NextTick` | old-xinu-forwarding-version/system/wakeup.c:13-20 | After any such run the next tick wakes it exactly when that tick is effective and the last one due (all delays up to 2^31-1) |
| `KernelWakeup.ExactWakeup` | old-xinu-forwarding-version/system/wakeup.c:13-20 | In every run a sleeper due in d ticks and not woken early sleeps through d-1 ticks, and the d-th wakes it exactly when all d were effective (all delays up to 2^31-1) |
| `KernelWakeup.PunctualWakeup` | old-xinu-forwarding-version/system/insertd.c:22-39 | Hence at exactly the d-th tick in every run in which no `recvtime(0)` blocks (all delays up to 2^31-1) |
| `KernelWakeup.SleepFromBoot` | old-xinu-forwarding-version/system/recvtime.c:25-35 | The same if-and-only-if from boot, through any history with delays up to 2^31-1, for `sleepms` and for a `recvtime` that blocks |
| `KernelWitness.ZeroTimeoutWitness` | old-xinu-forwarding-version/system/recvtime.c:25-33 | A run of `main` and a process it starts, from boot, after which `main` is due in one tick and, because a zero `recvtime` is at the head, still due in one tick after the next |
| `KernelPools.ReachablePools` | old-xinu-forwarding-version/system/getbuf.c:30-36 | In every reachable state the pop in `getbuf` never meets an empty list, and each pool balances its free list against count, granted waiters and losses |
| `KernelPools.LostRun` | old-xinu-forwarding-version/system/kill.c:49-54 | Over every run the losses of a pool grow by exactly the number of processes killed between the grant of a buffer and their next run |
| `KernelPools.ExactBalance` | old-xinu-forwarding-version/system/freebuf.c:34-36 | From boot, over every run, the free list has length max(scount,0) plus waiters granted but not resumed if and only if no process was killed in between |
| `KernelPools.BufferConservation` | old-xinu-forwarding-version/system/freebuf.c:34-36 | Over every run a pool keeps exactly the buffers it was made with, free or handed out |
| `BufChain.PoolLayout` | old-xinu-forwarding-version/system/mkbufpool.c:42-51 | Every buffer of a new pool is large enough, by less than a word more than needed, word aligned and inside the allocated region, and the buffers follow each other without gaps |
| `KernelWitness.LostWitness` | old-xinu-forwarding-version/system/kill.c:49-54 | A run of `main` and a process it starts, from boot, in which a kill leaves a granted buffer on the free list with no unit of the count for it |
| `BufChain.BufferTable.Mkbufpool` | old-xinu-forwarding-version/system/mkbufpool.c:20-53 | Argument, table and allocation failures exactly; on success the linking loop leaves a chain of exactly the laid-out buffers and no other pool changes |
| `BufChain.BufferTable.Getbuf` | old-xinu-forwarding-version/system/getbuf.c:31-42 | The pop behind the wait: the head buffer leaves the chain, its header holds the pool number and the result points behind it |
| `BufChain.BufferTable.Freebuf` | old-xinu-forwarding-version/system/freebuf.c:21-35 | The push before the signal: the buffer goes to the front of the chain of the pool that handed it out, found through the header; a header out of range is refused |
| `KernelBuffers.BufferPools.Mkbufpool` | old-xinu-forwarding-version/system/mkbufpool.c:20-53 | On the running kernel: the semaphore is created and the chain built, the pools of the kernel model stay the chains in memory and the invariant holds |
| `KernelMemory.MemoryPools.Mkbufpool` | old-xinu-forwarding-version/system/mkbufpool.c:26-34 | With the memory that `getmem` finds: the new buffers overlap no older pool, and no buffer of any pool is on the free memory list |
| `KernelMemory.MemoryPools.Getmem` | old-xinu-forwarding-version/system/getmem.c:9-49 | Any other allocation leaves all buffers off the free memory list |
| `KernelMemory.MemoryPools.Getstk` | old-xinu-forwarding-version/system/getstk.c:9-52 | The same for stacks |
| `KernelMemory.MemoryPools.Freemem` | old-xinu-forwarding-version/system/freemem.c:9-68 | The same for a release of memory that holds no buffer |
| `KernelBuffers.BufferPools.Getbuf` | old-xinu-forwarding-version/system/getbuf.c:21-30 | The wait on the pool's own semaphore, on the tables; a bad pool is refused |
| `KernelBuffers.BufferPools.GetbufRest` | old-xinu-forwarding-version/system/getbuf.c:31-42 | When the caller runs again the chain in memory is not empty; its head is handed out and the kernel model agrees |
| `KernelBuffers.BufferPools.Nbgetbuf` | old-xinu-forwarding-version/system/getbuf.c:49-75 | An error instead of blocking, otherwise `getbuf`; never gives up the CPU |
| `KernelBuffers.BufferPools.Freebuf` | old-xinu-forwarding-version/system/freebuf.c:21-38 | Push on the chain the header names, then signal that pool's semaphore, which may switch; the invariant holds afterwards |
| `QueueTable.DenotesLink` | old-xinu-forwarding-version/system/queue.c:22-31 | Linking an entry between two neighbours of a queue inserts it at that place of that queue and leaves every other queue, links in both directions inverse |
| `QueueTable.DenotesUnlink` | old-xinu-forwarding-version/system/getitem.c:53-57 | Bypassing an entry removes it from its queue and leaves every other queue |
| `Kernel.Kernel.constructor` | old-xinu-forwarding-version/system/initialize.c:154-191 | Boot leaves all queues empty and well linked and the abstract boot state, for which the invariant holds |
| `Kernel.Kernel.NewQueue` | old-xinu-forwarding-version/system/newqueue.c:9-29 | Two fresh entries linked as an empty queue between sentinels MAXKEY and MINKEY, all other entries unchanged |
| `Kernel.Kernel.Enqueue` | old-xinu-forwarding-version/system/queue.c:11-31 | Appends at the tail; SYSERR exactly for a bad queue or process |
| `Kernel.Kernel.Dequeue` | old-xinu-forwarding-version/system/queue.c:36-51 | Removes and returns the first process, EMPTY on an empty queue, SYSERR on a bad one |
| `Kernel.Kernel.GetFirst` | old-xinu-forwarding-version/system/getitem.c:9-22 | Removes and returns the first process, EMPTY on an empty queue |
| `Kernel.Kernel.GetItem` | old-xinu-forwarding-version/system/getitem.c:47-58 | Unlinks a process from the middle of its queue |
| `Kernel.Kernel.Insert` | old-xinu-forwarding-version/system/insert.c:9-36 | Inserts behind all keys that are at least as large, stopping at the sentinel |
| `Kernel.Kernel.Insertd` | old-xinu-forwarding-version/system/insertd.c:9-41 | Delta insertion: the walk subtracts keys, the new key is the rest and the successor's key loses it |
| `Kernel.Kernel.Ready` | old-xinu-forwarding-version/system/ready.c:18-26 | With RESCHED_NO: READY state and priority insertion; SYSERR exactly for a bad process |
| `Kernel.Kernel.ReadyNow` | old-xinu-forwarding-version/system/ready.c:24-31 | With RESCHED_YES: the same, then `resched` |
| `Kernel.Kernel.Resched` | old-xinu-forwarding-version/system/resched.c:9-47 | The scheduling decision, deferral check and new slice included, on the tables (what it does to the slice is in `KernelSlice`); afterwards the core invariant holds and the running process outranks the ready ones |
| `Kernel.Kernel.Wait` | old-xinu-forwarding-version/system/wait.c:9-39 | For processes and buffer pools alike: tables change as the model's `WaitOp`; SYSERR exactly for a bad or free semaphore |
| `Kernel.Kernel.Signal` | old-xinu-forwarding-version/system/signal.c:9-31 | For processes and buffer pools alike: tables change as the model's `SignalOp`; SYSERR exactly for a bad or free semaphore |
| `Kernel.Kernel.Signaln` | old-xinu-forwarding-version/system/signaln.c:9-36 | The loop is `count` single signals under one reschedule; SYSERR exactly for a bad semaphore or negative count |
| `Kernel.Kernel.NewSem` | old-xinu-forwarding-version/system/semcreate.c:34-50 | The cyclic search finds the first free semaphore from `nextsem`, or fails when none is free |
| `Kernel.Kernel.Semcreate` | old-xinu-forwarding-version/system/semcreate.c:11-28 | The semaphore `newsem` finds gets the count and is returned; SYSERR exactly for a negative count or a full table |
| `Kernel.Kernel.Semdelete` | old-xinu-forwarding-version/system/semdelete.c:9-35 | The entry is free, all waiters are ready, in order |
| `Kernel.Kernel.Semreset` | old-xinu-forwarding-version/system/semreset.c:9-34 | All waiters are ready, in order, and the count is set, on the tables as the model's `SemresetOp` (see `KernelLives.SetsCountStep`); SYSERR exactly for a negative count or a bad semaphore |
| `KernelState.FindPidComplete` | old-xinu-forwarding-version/system/create.c:107-124 | The cyclic search fails exactly when no process entry is free |
| `KernelState.FindSemComplete` | old-xinu-forwarding-version/system/semcreate.c:34-50 | The cyclic search fails exactly when no semaphore is free |
| `Kernel.Kernel.NewPid` | old-xinu-forwarding-version/system/create.c:107-124 | The cyclic search finds the first free process entry from `nextpid`, or fails when none is free |
| `Kernel.Kernel.Create` | old-xinu-forwarding-version/system/create.c:13-60 | The entry `newpid` finds becomes a suspended process with empty message box and is returned; SYSERR exactly for missing stack, priority below one or a full table |
| `Kernel.Kernel.Resume` | old-xinu-forwarding-version/system/resume.c:9-31 | A suspended process becomes ready; SYSERR exactly otherwise, else its priority |
| `Kernel.Kernel.Suspend` | old-xinu-forwarding-version/system/suspend.c:9-41 | A ready or running process other than the null process is suspended; SYSERR exactly otherwise |
| `Kernel.Kernel.Unsleep` | old-xinu-forwarding-version/system/unsleep.c:21-51 | The process leaves the sleep queue, its key added to its successor's; SYSERR exactly for a bad process or one that is not asleep |
| `Kernel.Kernel.Sleepms` | old-xinu-forwarding-version/system/sleep.c:28-52 | A zero delay only yields; otherwise the caller goes to the delta list |
| `Kernel.Kernel.Send` | old-xinu-forwarding-version/system/send.c:9-41 | The message is stored and a blocked receiver made ready; SYSERR exactly for a bad process or a full box |
| `Kernel.Kernel.Receive` | old-xinu-forwarding-version/system/receive.c:9-19 | The caller blocks unless a message is pending |
| `Kernel.Kernel.ReceiveRest` | old-xinu-forwarding-version/system/receive.c:20-25 | When it runs again it has a message, returns it and clears the box |
| `Kernel.Kernel.Recvclr` | old-xinu-forwarding-version/system/recvclr.c:9-25 | Returns and clears a pending message, else OK |
| `Kernel.Kernel.Recvtime` | old-xinu-forwarding-version/system/recvtime.c:9-35 | SYSERR for a negative wait; without a message the caller goes to the delta list |
| `Kernel.Kernel.RecvtimeRest` | old-xinu-forwarding-version/system/recvtime.c:36-46 | Returns and clears a message, else TIMEOUT |
| `Kernel.Kernel.Kill` | old-xinu-forwarding-version/system/kill.c:18-28 | Refusals, then the notice to the parent, where a switch may occur |
| `Kernel.Kernel.KillRest` | old-xinu-forwarding-version/system/kill.c:34-55 | The victim leaves whichever queue holds it, a waiter's semaphore count is restored, and its entry is free, on the tables as the model's `KillRest` (see `KernelLives.KillFrees`) |
| `Kernel.Kernel.DeferStart` | old-xinu-forwarding-version/system/sched_cntl.c:23-27 | Nested start of deferral, clearing the attempt flag on the outermost |
| `Kernel.Kernel.DeferStop` | old-xinu-forwarding-version/system/sched_cntl.c:34-43 | Nested end of deferral; SYSERR exactly when none is outstanding |
| `Kernel.Kernel.WakeLoop` | old-xinu-forwarding-version/system/wakeup.c:13-15 | The release loop on the tables is the model's loop and ends |
| `Kernel.Kernel.Clkhandler` | old-xinu-forwarding-version/system/clkhandler.c:28-30 | Decrement of the first key and release of the due sleepers |
| `Kernel.Kernel.ClkhandlerRest` | old-xinu-forwarding-version/system/clkhandler.c:34-37 | The preemption count and its reschedule |
| `FreeList.Canonical` | old-xinu-forwarding-version/system/freemem.c:49-65 | Two sorted, coalesced free lists that denote the same bytes are the same list |
| `Memory.GetmemBytes` | old-xinu-forwarding-version/system/getmem.c:22-47 | A success takes exactly the returned aligned range out of the free bytes, keeps the list sorted, granular and coalesced and lowers the total by its size; a failure changes nothing and means no block is large enough |
| `Memory.GetmemServes` | old-xinu-forwarding-version/system/getmem.c:22-40 | For n bytes: an aligned range of at least n and less than n + 8 bytes that were free and no longer are, or nothing, exactly when no block has n bytes |
| `Memory.GetmemLowest` | old-xinu-forwarding-version/system/getmem.c:24-42 | First fit: whenever some block is large enough the call succeeds, at or below its address |
| `Memory.GetstkBytes` | old-xinu-forwarding-version/system/getstk.c:23-51 | The same for the range below the returned top word |
| `Memory.GetstkServes` | old-xinu-forwarding-version/system/getstk.c:23-51 | The same for a stack of n bytes that ends at the word returned |
| `Memory.GetstkHighest` | old-xinu-forwarding-version/system/getstk.c:28-51 | Last fit: whenever some block is large enough the call succeeds, at or above its top |
| `Memory.ClashExact` | old-xinu-forwarding-version/system/freemem.c:28-47 | The test against two neighbours is true exactly when some byte of the range is already free |
| `Memory.FreememBytes` | old-xinu-forwarding-version/system/freemem.c:25-67 | Refused exactly on overlap; otherwise exactly the range is added and the list stays sorted, disjoint, granular and coalesced |
| `Memory.GetmemRoundTrip` | old-xinu-forwarding-version/include/memory.h:15-16 | `freemem(getmem(n), n)` gives back the identical free list for every n that does not overflow `roundmb` |
| `Memory.GetstkRoundTrip` | old-xinu-forwarding-version/include/memory.h:22-25 | `freestk(getstk(n), n)` gives back the identical free list for every such n |
| `Memory.StackSizeMeaning` | old-xinu-forwarding-version/system/create.c:31-33 | The stack size is the least multiple of 4 that is at least the size asked for, and at least 400 |
| `Memory.CreateKillConserves` | old-xinu-forwarding-version/system/create.c:33-48 | The stack `create` takes and `kill` releases: the free list is the same as before |
| `Memory.GetmemOverflow` | old-xinu-forwarding-version/system/getmem.c:22-40 | For the remaining seven sizes the rounded size is zero and `getmem` hands out the first free block without removing it |
| `Memory.GetstkOverflow` | old-xinu-forwarding-version/system/getstk.c:23-51 | For the same seven sizes `getstk` answers with the last word of the last block, which stays free |
| `Memory.CreateOverflow` | old-xinu-forwarding-version/system/create.c:31-36 | `create` meets this for exactly the stack sizes 2^32-7 to 2^32-4; larger ones are rounded to zero |
| `Memory.FreememOverflow` | old-xinu-forwarding-version/system/freemem.c:25-60 | For those sizes a release at an address that touches no free block links an empty block, and the list is no longer well formed |
| `Memory.RunWellFormed` | old-xinu-forwarding-version/system/initialize.c:136-152 | Over every sequence of the three calls the list stays sorted, disjoint, granular, non-empty and coalesced |
| `Heap.Heap.constructor` | old-xinu-forwarding-version/system/initialize.c:134-152 | Boot builds two blocks around the hole, a well-formed list inside the limits that leaves out less than 12 bytes below the hole and less than 8 above it; `mlength` of the header stays whatever it was |
| `Heap.Heap.Getmem` | old-xinu-forwarding-version/system/getmem.c:9-49 | The pointer walk and split change the linked list as the first-fit function says; `memlist.mlength` minus the free bytes is unchanged modulo 2^32 |
| `Heap.Heap.Getstk` | old-xinu-forwarding-version/system/getstk.c:9-52 | The same for the full scan and split at the high end |
| `Heap.Heap.Freemem` | old-xinu-forwarding-version/system/freemem.c:9-68 | Bad arguments refused; otherwise walk, overlap test and two-sided coalescing in place do what the release function says, with the same difference kept |
| `Nat.GenuportUnused` | old-xinu-forwarding-version/net/nat.c:248-271 | From every 16-bit port the generator yields a 16-bit port that no used entry holds |
| `NatPorts.GenuportRange` | old-xinu-forwarding-version/net/nat.c:248-264 | The port is within 40000 to 49999 exactly when the search starts there, or starts above on a used port below 65535, or starts below and every port up to 39999 is used |
| `NatPorts.RangeLeft` | old-xinu-forwarding-version/net/nat.c:249 | With an empty table and 49999 as the last port, the next is 50000 |
| `NatPorts.RangeLeftFromBoot` | old-xinu-forwarding-version/net/nat.c:248-249 | A packet history from boot whose 10000th flow leaves from port 50000 |
| `Nat.OneMatch` | old-xinu-forwarding-version/net/nat.c:109-115 | At most one used entry matches a packet in either direction: the one the scan finds |
| `Nat.HandleInv` | old-xinu-forwarding-version/net/nat.c:200-216 | Each packet keeps public ports and private flows of used entries pairwise distinct |
| `Nat.ReachableInv` | old-xinu-forwarding-version/net/nat.c:17-27 | The same after every packet history from boot |
| `NatFlows.ProtectedStep` | old-xinu-forwarding-version/net/nat.c:119-121 | An entry used within the timeout is not evicted, and only a packet of its own flow changes it, by refreshing its time |
| `NatFlows.ProtectedRun` | old-xinu-forwarding-version/net/nat.c:190-196 | The same over every packet history that ends within the timeout |
| `NatFlows.ReplyRoundTrip` | old-xinu-forwarding-version/net/nat.c:133-141 | After any packets in between, a reply within the timeout is rewritten to the private address and port the packet came from and to the interface recorded for its flow |
| `NatFlows.ReplyReachesHost` | old-xinu-forwarding-version/net/nat.c:169-228 | From boot, when every private address keeps to one interface: the reply goes to exactly the original address, port and interface |
| `NatFlows.MovedHost` | old-xinu-forwarding-version/net/nat.c:189-196 | A history from boot in which a flow opened through interface 1 continues through interface 2 and its reply goes to interface 1 |
| `NatFlows.PanicExact` | old-xinu-forwarding-version/net/nat.c:200-204 | The table overflows exactly when all 40 entries belong to other flows used within the timeout |
| `NatRules.InboundExact` | old-xinu-forwarding-version/net/nat.c:100-142 | A packet from the Internet is sent inside if and only if a used entry has its source as destination address and port and its destination as public address and port; then to the private address and port over the recorded interface, checksum cleared, the entry refreshed; otherwise it goes to the local stack as it came; of the other entries only stale ones change, by becoming free |
| `NatRules.OutboundExact` | old-xinu-forwarding-version/net/nat.c:169-229 | A packet of a flow in the table leaves through interface 0 from its public address and port; any other opens a flow in the first entry that is free or stale, all fields as written there, with a port no other entry holds, or overflows when there is none |
| `NatRules.NextFreePort` | old-xinu-forwarding-version/net/nat.c:248-271 | From a port between 40000 and 49998 the generator goes to the next port of the range, cyclically, that no used entry holds |
| `NatTable.NatTable.constructor` | old-xinu-forwarding-version/net/nat.c:14-22 | An empty table and the generator at 40000 |
| `NatTable.NatTable.NatInUdp` | old-xinu-forwarding-version/net/nat.c:86-142 | The inbound scan and rewrite, in place, are the packet function `InUdp` (see `NatRules.InboundExact`) |
| `NatTable.NatTable.NatOutUdp` | old-xinu-forwarding-version/net/nat.c:151-229 | The outbound scan, new entry and rewrite, in place, are the packet function `OutUdp` (see `NatRules.OutboundExact`) |
| `NatTable.NatTable.NatGenuport` | old-xinu-forwarding-version/net/nat.c:237-272 | The search loop ends, because 40 entries cannot hold 41 distinct candidates, at the first unused candidate |
| `Checksum.RfcValidSum` | old-xinu-forwarding-version/net/ip.c:402-408 | The one's complement sum of RFC 1071, section 1, is all ones exactly when the plain sum is a positive multiple of 65535 |
| `Checksum.NetworkOrder` | old-xinu-forwarding-version/net/ip.c:402-407 | Word i of a buffer is its bytes 2i and 2i+1, the high one first |
| `Checksum.IpAcceptsExact` | old-xinu-forwarding-version/net/ip.c:23 | `ip_in` accepts exactly the RFC-correct headers, the header of zeros, and those that are off by one because the fold dropped a carry |
| `Checksum.IpStampAccepted` | old-xinu-forwarding-version/net/ip.c:305-309 | Every stamped header passes the `ip_in` check |
| `Checksum.IpStampRfc` | old-xinu-forwarding-version/net/ip.c:402-413 | A stamped header is RFC-correct exactly when low half plus high half of the unstamped sum is between 1 and 65535 |
| `Checksum.IpStampNotRfc` | old-xinu-forwarding-version/net/ip.c:305-309 | A concrete header whose stamped form passes `ip_in` and is not RFC-correct |
| `Checksum.IcmpAcceptsExact` | old-xinu-forwarding-version/net/ip.c:68 | For even lengths the ICMP check accepts exactly the RFC-correct messages |
| `Checksum.IcmpStampAccepted` | old-xinu-forwarding-version/net/ip.c:288-294 | For even lengths stamp-then-verify succeeds exactly when low half plus high half of the unstamped sum is at most 65535 |
| `Checksum.IcmpStampRejected` | old-xinu-forwarding-version/net/icmp.c:408-410 | A concrete echo reply whose stamped form is rejected |
| `Checksum.Ipcksum` | old-xinu-forwarding-version/net/ip.c:393-413 | The loop over memory and the single fold; zero exactly for accepted headers |
| `Checksum.IcmpCksum` | old-xinu-forwarding-version/net/icmp.c:383-411 | The loop over memory and the single fold; zero exactly for RFC-correct messages |
| `Checksum.StampIp` | old-xinu-forwarding-version/net/ip.c:305-309 | Zeroing, summing and storing in network byte order leaves a header that passes the check |
| `Checksum.StampIcmp` | old-xinu-forwarding-version/net/ip.c:288-294 | Zeroing, summing and storing leaves the stamped message |
| `Lexer.LexPrinted` | old-xinu-forwarding-version/shell/lexan.c:41-147 | Printed plain, quoted or operator items, with blanks between them or without, are lexed back exactly when there are at most 32, no blank follows the 32nd, and nothing but an ampersand stands directly behind a plain word; otherwise the line is refused |
| `Lexer.LexExactly` | old-xinu-forwarding-version/shell/lexan.c:41-147 | The tokens of a line are ts if and only if the line, up to its end, is the print of items with these tokens under those conditions; every other line is refused, one with an open quote for example |
| `Lexer.LexLexical` | old-xinu-forwarding-version/shell/lexan.c:45-47 | A result has at most 32 tokens, each of which some line can hold |
| `Lexer.Relex` | old-xinu-forwarding-version/shell/lexan.c:96-117 | The tokens of any accepted line, requoted behind single blanks, are lexed back to themselves |
| `Lexer.ExtentMeaning` | old-xinu-forwarding-version/shell/lexan.c:41-63 | What is read: never behind the end of the line; on success exactly the line, with every token stored |
| `Lexan.Lexan` | old-xinu-forwarding-version/shell/lexan.c:10-147 | Ends on every terminated line, inside its buffers, having written at most characters consumed plus tokens bytes, both counts exactly those of the point where it ended; returns SYSERR exactly when the line is refused (which ones is in `Lexer.LexExactly`), else all texts, offsets and types, and the line is read exactly to its end |
| `Lexan.CopyString` | old-xinu-forwarding-version/shell/lexan.c:96-111 | The quoted-string loop copies up to the closing quote or the end of the line |
| `Lexan.CopyWord` | old-xinu-forwarding-version/shell/lexan.c:121-132 | The word loop copies up to the first special character |

## Left out

- `chprio`: it changes a priority without re-keying or rescheduling (old-xinu-forwarding-version/system/chprio.c:23-25), so the scheduling invariant is stated without it.
- Kernel.Kernel.Kill: does not model `prcount` and the `xdone` of the last process; both only end the system. The switch that may occur at the notice to the parent (old-xinu-forwarding-version/system/kill.c:28) is a cut between two steps.
- Kernel.Kernel.KillRest: does not model the `close` of the standard devices, which are outside the model, nor the stack release, which is in `Memory.CreateKillConserves`.
- `create`: name, initial stack contents and argument copying; whether `getstk` succeeded is a parameter. As in the code, a stack already taken is not released when the process table is full or the priority is refused.
- `sltop` and `slnonempty`: no C code shown decides anything by them.
- `getlast`, `sleep` (seconds), `getprio` and `semcount`, which would only add easy members.
- Interrupt masks, `ctxsw` and all assembly: a context switch is the change of `currpid`, and the lines after it are the continuation of the process. The tick is the one of clkhandler.c; the handler installed at boot is written in assembly.
- `clkticks` and `clktime` in `clkhandler`: the counters are not in the kernel state; NAT takes the time as a parameter.
- 32-bit overflow of `scount` and of `ndefers`: both are unbounded here.
- `squeue`: the queue of a semaphore is a function of its index, as the boot order fixes it.
- Kernel.Kernel.NewQueue: requires two free entries; the code's own bound test (old-xinu-forwarding-version/system/newqueue.c:15) is looser than the table, and boot meets the requirement exactly.
- Kernel.Kernel.Wait: like the other calls that may block, it requires that the null process does not block (old-xinu-forwarding-version/system/initialize.c:39-44) and that nobody blocks under deferral; `KernelSteps.Enabled` collects this and, for runs, that the semaphore of a buffer pool is used by the pool only.
- KernelWakeup.DelayStep: delays up to 2^31-1, as in the runs of this module; what a longer one does is in `KernelLongDelay`, for the tick that follows it.
- KernelWakeup.SleeperStep: the same; so do `SleepsOn`, `NextTick`, `ExactWakeup`, `PunctualWakeup` and `SleepFromBoot`.
- BufChain.BufferTable.Freebuf: requires that the buffer was handed out when its header names a pool; the code cannot detect a double release.
- KernelBuffers.BufferPools.Freebuf: the same.
- BufChain.BufferTable.Mkbufpool: what `getmem` and `semcreate` answer are parameters; as in the code, the memory is not released when `semcreate` fails.
- Heap.Heap.Freemem: requires an aligned range inside the address space, as `getmem` and `getstk` hand out; the code checks neither this nor the seven sizes that round to zero, for which see `Memory.FreememOverflow`; such a release at the start of a free block links that block to itself.
- KernelMemory.MemoryPools.Freemem: the same, and that the range holds no pool buffer, which the code cannot know.
- NatTable.NatTable.NatOutUdp: the table overflow is an outcome, after which the code stops the machine; packets are values, and handing them to `ip_local` or `ip_enqueue` is the outcome.
- NatFlows.ReplyReachesHost: the special case of one interface per private address; `NatFlows.ReplyRoundTrip` covers all histories and `NatFlows.MovedHost` shows the difference.
- ICMP translation (old-xinu-forwarding-version/net/nat.c:281-432): its entries are never marked used, so the table properties do not hold for it.
- Checksum.StampIcmp: even lengths only, as for the next line.
- Checksum.IcmpCksum: even lengths only; for odd ones the code shifts a signed byte (old-xinu-forwarding-version/net/icmp.c:405-407).
- Lexan.Lexan: the `len` argument, which the code does not use, is left out; the line is the array up to and including a terminator.
- ICMP reply queues, the `rawin` and `ipout` rings, ARP, UDP, DHCP, routing, device drivers, file systems, shell commands, formatted output, paging and virtual memory.
