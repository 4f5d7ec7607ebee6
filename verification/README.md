# xv6-riscv with MLFQ: a verified model

A Dafny 4.11 model of the algorithms at the centre of this xv6-riscv kernel and of three of its user
programs, with proofs about all runs of each. `dafny verify dfyconfig.toml` checks everything.

| files | what they model |
|---|---|
| LogProtocol, LogSafety, LogOrder, Log | the redo log: group commit, absorption, reservation and recovery, with a crash after any block write |
| PageTable, VmState, Vm, Procs | Sv39 user page tables over the page allocator, and the address spaces of processes with lazy allocation |
| FsLayout, FsState, Fs | block bitmap, direct and indirect blocks, inodes in their blocks, file reading and writing, truncation |
| FsFault | a write whose count is less than what it stored |
| FsCrash | a file write over the log: what a crash at any point leaves |
| Bio | the buffer cache with its list in order of last use |
| Mlfq, MlfqRuns, MlfqLaws, MlfqCases, Scheduler | the multilevel feedback queue scheduler and its intrusive run queues |
| Sleeplock | sleeplocks over sleep and wakeup, all interleavings of lock steps |
| Virtqueue | descriptor and ring bookkeeping of the disk driver against any well-behaved device |
| Pipe | the ring buffer with wrapping counters, and who sleeps on it |
| Umalloc | the Kernighan and Ritchie allocator of user programs |
| Shell, ShellGrammar | the command parser against its grammar, with printing and in-place termination of words |
| Regex | the matcher of grep |

Code that updates state in place is a class whose methods follow the C functions; each is proved against
functions or predicates over the values of the fields. Protocols (log, scheduler, sleeplock) are step machines
whose runs are arbitrary sequences of steps; the methods of the log and of the scheduler are proved to take exactly
those steps. Ghost maps say who owns a page, a disk block, a heap unit or a descriptor; that they are maps, tied in
both directions to the real structures, is what makes "no overlap" and "nothing lost" statements of one invariant.

Where the code and what one would expect differ, the model follows the code:

- log_write tests for a full log before it looks for absorption, so a write that needs no slot can panic
  (`LogSafety.AbsorbedWritePanics`); the guarantee of `LogSafety.LogSpace` is for operations with a slot left.
- userinit and kkill make a process RUNNABLE without queueing it. `MlfqRuns.QueueExact` says exactly which RUNNABLE
  processes the scheduler cannot find, and `MlfqRuns.StrandedWaits` until when. The first process is one of them:
  in every run from boot it waits for 100 ticks unless a boost is asked for (`MlfqCases.FirstProcessWaits`).
- sys_boostproc of one process resets its level but does not move it. `MlfqRuns.BoostOneMisplaces` says exactly when that
  leaves the process in a queue that is not the one of its level, and `MlfqCases.BoostedInLowerQueue` is a run in which it does.
- A clock tick in user mode yields twice when the quantum is used up, once in clockintr and once in usertrap; the
  second is a Yield step of its own.
- When a copy from user memory fails in the middle of writei, the bytes copied so far are in the buffer although they are
  neither counted nor logged. As long as a block is free, the bytes counted are the bytes stored if and only if all of the
  source or none of it can be read, or what can be read ends with a block (`FsCode.CountExact`; `FsCode.FileCountExact`
  for filewrite). `FsFault.FaultedWrite` stores 2000 bytes and returns 1024.
- pipewrite returns -1 without waking readers. Sleepers on a pipe are never left with something to do, with one exception:
  a writer that is killed after it has stored bytes (`Pipe.Ring.Write` says exactly when, `Pipe.KilledWriter` is such a run).
- growproc with a negative argument larger than the size does nothing and succeeds (`ProcMemory.Procs.Growproc`).

## Model

| member | source | states |
|---|---|---|
| `LogSafety.StepInv` | kernel/log.c:67-236 | every atomic step of the log (section under the lock, single block write, crash, eviction, step of recovery) keeps the invariant |
| `LogSafety.RunInv` | kernel/log.c:67-236 | so does every run, with crashes anywhere, also inside recovery |
| `LogSafety.CrashAtomicity` | kernel/log.c:67-204 | after any run, recovering the disk gives the home blocks after a whole number of committed groups, and of every operation all updates are in or none |
| `LogSafety.Durability` | kernel/log.c:148-204 | a committed group is never taken back, and when a committing end_op has returned every operation begun is in, save those lost to a crash |
| `LogOrder.CommittedFirst` | kernel/log.c:148-236 | in every run what is committed is a first part of all that was written, in order; until a crash the rest is pending |
| `LogOrder.WholeOperations` | kernel/log.c:148-204 | a first part of the writes of operations one after another, that holds each whole or not at all, is the writes of the first k of them |
| `LogOrder.CrashBetweenOperations` | kernel/log.c:128-204 | when operations use the log one after another, recovery after any number of steps and crashes gives the state after the first k of them, and every committed one is among these |
| `LogSafety.RunFate` | kernel/log.c:128-236 | in every run each operation is active, pending, durable or lost, and its updates are accordingly all in, all pending or all gone |
| `LogSafety.LogSpace` | kernel/log.c:128-143 | in every run of operations that add at most MAXOPBLOCKS blocks, log entries plus unspent reservations fit in LOGBLOCKS and an appending log_write does not panic |
| `LogSafety.AbsorbedWritePanics` | kernel/log.c:216-236 | an absorbed log_write can panic: there is a run in which an active operation re-writes a logged block when the log is full |
| `LogSafety.CommitPoint` | kernel/log.c:195-204 | writing the header moves what recovery yields from the old file system to the new one, in one block write |
| `LogSafety.InstallKeepsRecovery` | kernel/log.c:67-84 | installing any logged block does not change what recovery yields, so recovery can be repeated |
| `LogSafety.EraseHead` | kernel/log.c:195-204 | erasing the header after installation does not change what recovery yields |
| `LogProtocol.InstallFromAt` | kernel/log.c:67-84 | installation puts the logged contents at exactly the listed home blocks |
| `LogProtocol.RecoverAt` | kernel/log.c:118-124 | recovery gives each block its logged contents if it is listed and keeps it otherwise |
| `LogCode.Log.constructor` | kernel/log.c:54-63 | a device with an empty log header is a valid start, before recovery |
| `LogCode.Log.BeginOp` | kernel/log.c:128-143 | admits an operation exactly when no commit runs and the reservation for it fits |
| `LogCode.Log.LogWrite` | kernel/log.c:216-236 | records the update, absorbing a block already listed; panics exactly when the log is full or no operation is active |
| `LogCode.Log.WriteHead` | kernel/log.c:104-115 | the loop writes the header block that lists the logged blocks, as one step |
| `LogCode.Log.WriteLog` | kernel/log.c:180-192 | copies every modified block to the log, one step for each block write |
| `LogCode.Log.InstallTrans` | kernel/log.c:67-84 | the disk becomes the one with all logged blocks installed |
| `LogCode.Log.Commit` | kernel/log.c:195-204 | takes commit steps only, to the end: the pending group is committed and the log empty |
| `LogCode.Log.EndOp` | kernel/log.c:148-176 | the last operation commits its group: every update pending is in, every operation of the group durable and none lost, and the disk itself is the file system after every committed group |
| `LogCode.Log.ReadHead` | kernel/log.c:88-98 | the in-memory list is the one on disk |
| `LogCode.Log.RecoverFromLog` | kernel/log.c:118-124 | whatever the crash left, the disk becomes its recovery and the log is empty |
| `LogCode.Log.PowerLoss` | kernel/log.c:67-204 | a crash keeps the disk and loses everything else |
| `PageTable.PteRoundTrip` | kernel/riscv.h:364-380 | address and permissions read back from a PTE made of them |
| `VmState.PxDigits` | kernel/riscv.h:373-380 | the three 9-bit indices of a virtual address are the digits of its page number |
| `PageTable.WalkRoles` | kernel/vm.c:98-115 | the three-level walk from a root ends in the last-level table owned by that root for that range |
| `PageTable.SlotUnique` | kernel/vm.c:98-115 | a last-level table belongs to one root and one range only: the walk is injective |
| `PageTable.UnmappedIsZero` | kernel/vm.c:98-115 | an entry that is not valid is zero |
| `PageTable.MapPage` | kernel/vm.c:146-174 | mapping a held page changes one entry, hands the page to that address and keeps the tables a forest |
| `PageTable.UnmapPage` | kernel/vm.c:193-212 | unmapping changes one entry and releases the page |
| `PageTable.CutTree` | kernel/vm.c:263-278 | removing an entry and the tables below it keeps the rest a forest |
| `PageTable.DropTree` | kernel/vm.c:263-278 | removing a whole tree without leaves keeps the rest a forest |
| `VmCode.Vm.constructor` | kernel/kalloc.c:27-40 | every whole page of the range, and nothing else, is free |
| `VmCode.Vm.Kalloc` | kernel/kalloc.c:69-82 | takes the first free page, or returns 0 with nothing changed exactly when none is left |
| `VmCode.Vm.Kfree` | kernel/kalloc.c:47-63 | puts a page that is not free back on the list; no byte of another page in use changes |
| `VmCode.Vm.WalkLevel` | kernel/vm.c:98-115 | one level of the walk, growing the table if asked; on failure nothing has changed |
| `VmCode.Vm.Walk` | kernel/vm.c:98-115 | the entry of an address; a missing table without allocation means that the address is unmapped, with allocation that memory ran out; at most two pages are taken |
| `VmCode.Vm.Mappages` | kernel/vm.c:146-174 | one page is mapped and nothing else changes, or memory ran out and only empty tables were added |
| `VmCode.Vm.UnmapOne` | kernel/vm.c:193-212 | at most one mapping goes; its page is freed if asked |
| `VmCode.Vm.Uvmunmap` | kernel/vm.c:193-212 | exactly the mappings of the range go, their pages are freed, everything else stays |
| `VmCode.Vm.Freewalk` | kernel/vm.c:263-278 | frees exactly the tables of the tree, once each; the leaf panic is not reachable |
| `VmCode.Vm.Uvmfree` | kernel/vm.c:283-288 | frees exactly the pages and tables of one address space |
| `VmCode.Vm.ProcFreepagetable` | kernel/proc.c:383-388 | the same from a process: each user and table page is freed once, trapframe and trampoline are not |
| `VmCode.Vm.Uvmcreate` | kernel/vm.c:179-187 | an empty address space, or nothing changed when memory has run out |
| `VmCode.Vm.MapTop` | kernel/vm.c:146-174 | maps the trampoline or the trapframe into a table under construction |
| `VmCode.Vm.ProcPagetable` | kernel/proc.c:349-378 | an address space with trampoline and trapframe only; it fails only with fewer than 5 pages free, and then every page goes back |
| `VmCode.Vm.AddPage` | kernel/vm.c:217-240 | a page with given contents and permissions is mapped at an unmapped address, or everything is undone because fewer than 3 pages were free |
| `VmCode.Vm.Uvmdealloc` | kernel/vm.c:247-258 | frees exactly the pages between the sizes |
| `VmCode.Vm.Uvmalloc` | kernel/vm.c:217-240 | maps every page between the sizes, readable by the user with the permissions asked for and no others, or none, and that only for want of memory; no process sees its memory change |
| `VmCode.Vm.Uvmcopy` | kernel/vm.c:297-324 | the child has the parent memory below sz with the same permissions, or all its pages went back for want of memory |
| `VmCode.Vm.Walkaddr` | kernel/vm.c:121-138 | the page of a valid user mapping, else 0; nothing changes |
| `VmCode.Vm.Memmove` | kernel/vm.c:343-375 | the bytes land in the one page mapped there |
| `VmState.BuiltTorn` | kernel/proc.c:349-388 | building an address space and tearing it down gives every page back |
| `VmState.AddedRemoved` | kernel/vm.c:217-258 | growing and shrinking again gives every page back |
| `VmState.NoLeak` | kernel/kalloc.c:47-82 | when no table is left, every page that nobody holds is free |
| `VmState.ForkMemory` | kernel/vm.c:297-324 | a copied address space reads as its parent on every page, mapped or not |
| `VmState.CopyRoundTrip` | kernel/vm.c:343-403 | what copyout wrote is what copyin reads |
| `ProcMemory.Procs.constructor` | kernel/proc.c:199-218 | no process has an address space |
| `ProcMemory.Procs.Create` | kernel/proc.c:287-300 | a trapframe page, mapped at TRAPFRAME below the trampoline, and a new address space of size 0 that reads as zeros; or nothing lost, with fewer than 6 pages free; the memory of every process is as before |
| `ProcMemory.Procs.Destroy` | kernel/proc.c:322-330 | exactly the pages of this process and its trapframe page are freed; the memory of the others is as before |
| `ProcMemory.Procs.Growproc` | kernel/proc.c:409-427 | size and memory after growing or shrinking, with 64-bit wrap-around of sz + n; growing changes no byte anyone sees, makes the new pages readable and writable, and fails only beyond TRAPFRAME or for want of memory |
| `ProcMemory.Procs.Sbrk` | kernel/sysproc.c:45-70 | eager and lazy growth return the same address, show the same memory and leave the new pages usable; when it fails; shrinking never does and changes only the pages given back |
| `ProcMemory.Procs.Vmfault` | kernel/vm.c:453-473 | maps a zeroed, writable page below sz where there is none, or fails because there is nothing to map or memory has run out; no process sees a difference |
| `ProcMemory.Procs.PageFor` | kernel/vm.c:343-403 | the page behind a user address, faulted in if need be; none exactly if the page is neither accessible nor below sz and unmapped, or memory runs out |
| `ProcMemory.Procs.Copyout` | kernel/vm.c:343-375 | on success exactly the bytes of the range change, over all processes; on failure exactly those before the first page that is not writable and cannot be faulted in, or for which memory ran out |
| `ProcMemory.Procs.Copyin` | kernel/vm.c:381-403 | the bytes are those of user memory, all of them or those before the first page that cannot be read or faulted in; no process sees a change |
| `ProcMemory.Procs.PageToWrite` | kernel/vm.c:349-366 | the page copyout writes: mapped for the user and writable, or to be faulted in |
| `ProcMemory.Procs.SbrkAndUse` | kernel/vm.c:343-403 | memory obtained by sbrk can be used: what is copied out to it is copied in from it and nothing else changes |
| `ProcMemory.StoppedOnly` | kernel/vm.c:343-403 | a copy over usable pages fails only if fewer than 3 pages are free for each page of the range |
| `ProcMemory.Procs.Fork` | kernel/proc.c:432-479 | the child reads as the parent on every page and may do the same with it, or every page taken went back for want of memory; the memory of every process, the parent too, is as before |
| `ProcMemory.Procs.CopyTo` | kernel/proc.c:443-449 | the copy to a new process: it reads as the parent on every page, or only empty tables were added |
| `ProcMemory.ForkUndone` | kernel/proc.c:443-447 | creating a process, failing to copy and freeing it restores the owner of every page and the memory of every process |
| `ProcMemory.Procs.DestroyAll` | kernel/proc.c:322-388 | whatever happened before, destroying all processes frees every page once, trapframe pages too, but those handed out for something else |
| `Umalloc.Heap.constructor` | user/umalloc.c:21-22 | an allocator that has not been used |
| `Umalloc.Heap.FindPredecessor` | user/umalloc.c:30-32 | the circular search ends, at the block after which the freed one belongs |
| `Umalloc.Heap.Free` | user/umalloc.c:25-44 | the block joins the ring in address order, merged with the neighbours it touches, and the search goes on from its predecessor; other live blocks and the set of units are unchanged |
| `Umalloc.Heap.Morecore` | user/umalloc.c:47-61 | a fresh region becomes free memory, or nothing changes; afterwards a block is big enough |
| `Umalloc.Heap.Take` | user/umalloc.c:75-84 | exactly nunits, the last of the block, leave the free list and become a live block disjoint from all others |
| `Umalloc.Heap.Malloc` | user/umalloc.c:64-90 | a fresh live block of the least number of units that hold nbytes, at the end of the first block big enough going round from freep; one call of morecore exactly if no block is big enough; 0 only if that fails |
| `Umalloc.Partition` | user/umalloc.c:25-90 | in a valid heap every unit obtained lies in exactly one block, free or live |
| `Umalloc.Conservation` | user/umalloc.c:25-90 | the sizes of all blocks add up to the units obtained from sbrk |
| `Umalloc.TakeWhole` | user/umalloc.c:76-77 | an exact fit leaves a valid heap |
| `Umalloc.TakePart` | user/umalloc.c:78-82 | a split leaves a valid heap |
| `Umalloc.MergeUp` | user/umalloc.c:33-37 | merging with the block above leaves a valid heap but for the gap below |
| `Umalloc.MergeDown` | user/umalloc.c:38-42 | merging with the block below leaves a valid, coalesced heap |
| `MlfqRuns.StepInv` | kernel/proc.c:65-178 | every scheduling step keeps the queues disjoint, free of duplicates and full of RUNNABLE processes only; a process is RUNNABLE and unqueued from its stranding to the next boost, exactly |
| `MlfqRuns.QueueExact` | kernel/proc.c:392-822 | in every run a RUNNABLE process is in no queue if and only if userinit or a kill made it runnable and no boost has come since |
| `MlfqRuns.StrandedWaits` | kernel/proc.c:804-822 | such a process is not dispatched until a boost comes |
| `MlfqLaws.StepProc` | kernel/proc.c:392-822 | what every step does to state, channel, pid and killed flag of every process, and who runs then |
| `MlfqLaws.FallsAsleep` | kernel/proc.c:753-779 | sleep(c) leaves the process SLEEPING on c and in no queue |
| `MlfqLaws.SleepsOn` | kernel/proc.c:753-798 | in every run it stays so until a wakeup of c, a kill, or a tick if c is the clock |
| `MlfqLaws.WakesUp` | kernel/proc.c:784-798 | a wakeup of d makes it RUNNABLE, behind all its queue held, if d is c, and leaves it asleep otherwise |
| `MlfqLaws.SleepWakeup` | kernel/proc.c:753-798 | from sleep(c) through any such run, wakeup(d) makes the process RUNNABLE and queued if and only if d is c |
| `MlfqLaws.KilledExact` | kernel/proc.c:804-822 | in every run a process is marked killed if and only if a kill of its pid found it first and it has not been freed since |
| `MlfqLaws.QueueStep` | kernel/proc.c:65-99 | a step without a boost adds exactly its arrivals to the back of each queue and takes a dispatched process off the front |
| `MlfqLaws.QueueFifo` | kernel/proc.c:65-99 | between boosts every queue is first in, first out, and loses nobody |
| `MlfqCases.FirstProcessLost` | kernel/proc.c:392-404 | the run from boot to the end of userinit leaves the first process RUNNABLE and in no queue |
| `MlfqCases.FirstProcessWaits` | kernel/proc.c:392-404 | in every continuation without a boost call and with fewer than BOOST_INTERVAL ticks it is never dispatched |
| `MlfqRuns.StepAccount` | kernel/trap.c:168-210 | effect of any step on level and time of any process |
| `MlfqRuns.NoGaming` | kernel/trap.c:178-204 | in every run level and time in the level are a function of the ticks charged since the last reset, however the process sleeps or yields |
| `MlfqRuns.AccountFromBoot` | kernel/trap.c:178-204 | the same from boot |
| `MlfqRuns.ScanIs` | kernel/proc.c:631-666 | the one-dequeue-per-level scan dispatches the head of the first nonempty queue |
| `MlfqRuns.StrictPriority` | kernel/proc.c:598-673 | a round dispatches the head of the first nonempty queue, after a boost if one is due, and nothing only if all queues are empty |
| `MlfqRuns.TopFirst` | kernel/proc.c:598-673 | between boosts the top queue is served first and in order, whatever is added meanwhile |
| `MlfqRuns.BoostServesAll` | kernel/proc.c:155-178 | after a boost the next dispatches are exactly the processes that were RUNNABLE, in table order |
| `MlfqRuns.NoEarlyBoost` | kernel/proc.c:621-626 | no automatic boost comes within BOOST_INTERVAL ticks of the last |
| `MlfqRuns.NoStarvation` | kernel/proc.c:155-178 | within NPROC dispatches of a boost every process that was RUNNABLE has run |
| `MlfqRuns.ServedBeforeNextBoost` | kernel/proc.c:155-178 | with no more ticks than dispatches they all run before the next automatic boost is due |
| `MlfqRuns.StepPlaced` | kernel/proc.c:65-178 | every step but sys_boostproc of one process keeps queued processes in the queue of their level |
| `MlfqRuns.RunPlaced` | kernel/proc.c:65-178 | the same over runs |
| `MlfqRuns.BoostOneMisplaces` | kernel/sysproc.c:157-169 | after sys_boostproc of one process its queue still is that of its level if and only if it was not queued below the top |
| `MlfqCases.FirstDemotion` | kernel/trap.c:178-204 | the run in which a forked process is dispatched and charged two ticks ends with it in queue 1 |
| `MlfqCases.BoostedInLowerQueue` | kernel/sysproc.c:157-169 | sys_boostproc of that process leaves it in queue 1 at level 0 |
| `SchedulerCode.Scheduler.constructor` | kernel/proc.c:199-218 | procinit |
| `SchedulerCode.Scheduler.Enqueue` | kernel/proc.c:65-81 | the pointer code appends to the queue of the process level and nothing else changes |
| `SchedulerCode.Scheduler.Dequeue` | kernel/proc.c:86-99 | takes the front off, or finds the queue empty |
| `SchedulerCode.Scheduler.Find` | kernel/proc.c:110-112 | the search loop finds the position of a process and its predecessor, if it is there |
| `SchedulerCode.Scheduler.DequeueSpecific` | kernel/proc.c:104-127 | cuts the process out of the queue of its level if it is there, and changes nothing otherwise |
| `SchedulerCode.Scheduler.DemoteProcess` | kernel/proc.c:132-150 | moves a process from its queue, if it is in it, to the tail of the next queue down; at the bottom nothing changes |
| `SchedulerCode.Scheduler.PriorityBoost` | kernel/proc.c:155-178 | the loops compute the boost of the state machine |
| `SchedulerCode.Scheduler.Wakeup` | kernel/proc.c:784-798 | the loop wakes and queues exactly the sleepers on the channel, in table order |
| `SchedulerCode.Scheduler.Resume` | kernel/proc.c:646-656 | what the scheduler does after a switch: requeue if RUNNABLE |
| `SchedulerCode.Scheduler.Yield` | kernel/proc.c:704-711 | is the Yield step |
| `SchedulerCode.Scheduler.Sleep` | kernel/proc.c:753-779 | is the Sleep step, which stores the channel |
| `SchedulerCode.Scheduler.Exit` | kernel/proc.c:500-539 | is the Exit step |
| `SchedulerCode.Scheduler.ClockIntr` | kernel/trap.c:168-210 | is the Tick step: wake clock sleepers, charge, demote and yield |
| `SchedulerCode.Scheduler.ChargeCurrent` | kernel/trap.c:178-204 | charges the running process one tick |
| `SchedulerCode.Scheduler.ForkReady` | kernel/proc.c:473-476 | is the Fork step |
| `SchedulerCode.Scheduler.UserInit` | kernel/proc.c:392-404 | is the UserInit step, which does not queue |
| `SchedulerCode.Scheduler.Alloc` | kernel/proc.c:269-316 | takes the first unused slot, if there is one, with a fresh account; without memory the slot is unused again |
| `SchedulerCode.Scheduler.FreeProc` | kernel/proc.c:322-344 | is the Free step |
| `SchedulerCode.Scheduler.Kill` | kernel/proc.c:804-822 | is the Kill step, which does not queue |
| `SchedulerCode.Scheduler.BoostProc` | kernel/sysproc.c:143-171 | boosts all or resets one process, -1 if there is none |
| `SchedulerCode.Scheduler.Round` | kernel/proc.c:607-666 | one turn of the scheduler loop is the Round step |
| `SchedulerCode.EnqueueLinks` | kernel/proc.c:65-81 | head, tail and queue_next represent the longer queue afterwards |
| `SchedulerCode.CutLinks` | kernel/proc.c:86-127 | and the shorter one after a removal anywhere |
| `Sleeplock.StepInv` | kernel/sleeplock.c:22-41 | every interleaved step of any number of processes keeps the invariant |
| `Sleeplock.RunInv` | kernel/sleeplock.c:22-41 | so does every run |
| `Sleeplock.MutualExclusion` | kernel/sleeplock.c:22-41 | at most one process holds the sleeplock, and its pid is recorded |
| `Sleeplock.NoLostWakeup` | kernel/proc.c:753-798 | when the lock is free and no release is under way nobody sleeps on it or is about to |
| `Sleeplock.NoDeadlock` | kernel/sleeplock.c:22-41 | as long as a process is in the protocol some process in it can take a step |
| `Sleeplock.OnlyWithTheLock` | kernel/sleeplock.c:22-41 | a process leaves acquiresleep only with the lock, which was free, and gives it up only in releasesleep |
| `Sleeplock.TakesFreeLock` | kernel/sleeplock.c:22-31 | acquiresleep on a free lock takes it in three steps |
| `Sleeplock.Releases` | kernel/sleeplock.c:34-41 | releasesleep, undisturbed, frees the lock and leaves nobody else asleep |
| `Sleeplock.HandOver` | kernel/sleeplock.c:22-41 | a sleeper can then take the lock |
| `FsLayout.BitSet` | kernel/fs.c:76-79 | a bitmap bit set or cleared reads back and the others are unchanged |
| `FsLayout.WordSet` | kernel/fs.c:430-436 | a block number stored in an indirect block reads back and the others are unchanged |
| `FsLayout.InodePut` | kernel/fs.c:227-242 | an inode stored in a slot of its block reads back with all its fields, and the other 15 of the block are unchanged |
| `FsState.TakeOk` | kernel/fs.c:67-89 | taking a free block keeps exact ownership and every block list |
| `FsState.LinkOk` | kernel/fs.c:406-444 | putting a held block into an inode keeps exact ownership |
| `FsState.LinkIndOk` | kernel/fs.c:424-429 | a zeroed indirect block lists nothing, so no list or byte changes |
| `FsState.DropOk` | kernel/fs.c:449-476 | freeing a listed block keeps ownership of all others |
| `FsState.DropIndOk` | kernel/fs.c:462-472 | freeing the indirect block once its entries are freed restores exact ownership |
| `FsState.PokeOk` | kernel/fs.c:529-562 | changing a data block changes the bytes of one place of one file |
| `FsState.SaveOk` | kernel/fs.c:227-242 | saving an inode changes no block list and no byte of any file, and keeps exact ownership |
| `FsState.SaveReadsBack` | kernel/fs.c:227-313 | what iupdate stored is what ilock reads, for this inode; for every other inode ilock reads what it read before |
| `FsCode.FileSystem.FindFree` | kernel/fs.c:73-88 | the nested loops find the first free block, or there is none |
| `FsCode.FileSystem.Balloc` | kernel/fs.c:67-89 | takes and zeroes the first free block; 0 exactly when none is free |
| `FsCode.FileSystem.Bfree` | kernel/fs.c:93-106 | clears the bit of a block in use; the panic is not reachable |
| `FsCode.FileSystem.Bmap` | kernel/fs.c:406-444 | the block of a place in the file, allocated if need be; no byte of any file changes; 0 only if no block is free |
| `FsCode.FileSystem.MapIndirect` | kernel/fs.c:420-441 | the same beyond the direct blocks |
| `FsCode.FileSystem.MapEntry` | kernel/fs.c:430-440 | the same for an entry of an existing indirect block |
| `FsCode.FileSystem.WriteBlock` | kernel/fs.c:539-551 | one turn of the write loop stores its bytes in one block of the file; unless the copy fails every change is logged |
| `FsCode.FileSystem.WriteLoop` | kernel/fs.c:539-551 | the loop stores a first part of the bytes and logs a bounded set of blocks; it stores all that can be read unless no block is free, and counts whole blocks of it |
| `FsCode.FileSystem.Writei` | kernel/fs.c:529-562 | bytes [off, off+r) of the file are replaced, its size becomes max(size, off+r), type, device and links of the inode, the other inodes and the other files are unchanged, and no block is allocated that the write does not reach; -1 exactly for a bad offset or size; short only if no block is free or user memory faults, and then how short; saved inodes stay saved, every change is logged, at most MAXOPBLOCKS blocks for up to 3 blocks of data |
| `FsCode.FileSystem.Iupdate` | kernel/fs.c:227-242 | the inode reads back from its slot on disk; what the disk holds of every other inode, and every file, is as before |
| `FsCode.FileSystem.Readi` | kernel/fs.c:495-519 | returns the bytes of the file; if the destination faults, -1 and exactly the bytes for which there is room; nothing is allocated, logged or changed |
| `FsCode.FileSystem.ReadBlock` | kernel/fs.c:507-516 | one turn of the read loop gives the bytes of the file at that place |
| `FsCode.FileSystem.Itrunc` | kernel/fs.c:449-476 | every block of the inode is freed once, its size and block list are zero and its other fields unchanged; no other block changes its use and other files read as before |
| `FsCode.FileSystem.TruncEntries` | kernel/fs.c:463-468 | the second loop frees exactly the listed blocks |
| `FsCode.FileSystem.Iput` | kernel/fs.c:338-363 | the last reference to an inode without links frees its blocks and, with type 0, its place on disk; any other changes nothing |
| `FsCode.FileSystem.Filewrite` | kernel/file.c:148-172 | the whole write in chunks: contents and size after it, the return value, how short it is and why, at most MAXOPBLOCKS blocks logged by each operation, and a trace in which each state is the one before with the blocks logged by one operation |
| `FsCode.CountExact` | kernel/fs.c:539-561 | while a block is free, writei returns the number of bytes it stored if and only if all or none of the source is readable or what is readable ends with a block |
| `FsCode.FileCountExact` | kernel/file.c:148-172 | the same for filewrite, with the chunks it writes |
| `FsFault.FaultedWrite` | kernel/fs.c:539-561 | an input for which it does not: 2000 of 3000 bytes readable at offset 0 of an empty file, 2000 stored, 1024 returned |
| `FsFault.FaultedFilewrite` | kernel/file.c:148-172 | the same input through filewrite: 2000 stored, the offset moves by 1024, -1 returned |
| `FsCode.Budget` | kernel/file.c:148-155 | 4 data blocks, 4 bitmap blocks, the indirect block and the block of the inode at most |
| `FsCode.WriteContents` | kernel/fs.c:529-562 | contents after a write: the old ones with the new bytes at off; other files as before |
| `FsCode.FileSystem.WriteThenRead` | kernel/fs.c:495-562 | a read of what a write counted returns the same bytes, and leaves the state the write left |
| `FsCrash.TraceApplies` | kernel/file.c:148-172 | the states of a file write are the first with the logged blocks of its operations put in place, one after another |
| `FsCrash.FileRead` | kernel/fs.c:294-318 | a kernel that starts on a disk with the same blocks outside the log finds the same files |
| `FsCrash.RecoveredState` | kernel/file.c:148-172 | a file write stopped anywhere, crashed and recovered: the disk is that after a whole number of its operations, with every committed one |
| `FsCrash.WholeChunks` | kernel/file.c:148-172 | the file then reads as before with the first m chunks of 3072 bytes written, and every other file as before |
| `FsCode.Ownership` | kernel/fs.c:67-106 | a bit is set if and only if the block is fixed or in exactly one place of one inode |
| `Bio.InsertFront` | kernel/bio.c:46-52 | the four pointer stores insert at the front of the ring |
| `Bio.CutOut` | kernel/bio.c:128-129 | the two pointer stores cut a buffer out of the ring |
| `Bio.Recycle` | kernel/bio.c:77-86 | an unreferenced buffer may take on another block without losing contents |
| `Bio.UnreferencedIsCurrent` | kernel/bio.c:77-86 | a buffer without references holds nothing the disk does not have, since whoever changed it wrote it or has it pinned |
| `Bio.Bcache.constructor` | kernel/bio.c:37-53 | the ring holds every buffer, none referenced |
| `Bio.Bcache.Lookup` | kernel/bio.c:66-73 | finds the buffer of a block, or none has it |
| `Bio.Bcache.FindVictim` | kernel/bio.c:77-78 | finds the least recently used unreferenced buffer, or all are referenced |
| `Bio.Bcache.Bget` | kernel/bio.c:59-89 | a reference to the buffer of the block, or the recycled least recently used unreferenced one; where the source panics all are in use |
| `Bio.Bcache.Lock` | kernel/sleeplock.c:22-31 | locks the buffer |
| `Bio.Bcache.Fill` | kernel/bio.c:98-101 | the buffer holds the latest contents of its block |
| `Bio.Bcache.Bread` | kernel/bio.c:93-103 | the buffer is locked, valid and holds the latest contents of the block; it is the cached one or the recycled least recently used one, and if there is neither all are referenced, where the source panics |
| `Bio.Bcache.Modify` | kernel/bio.c:93-137 | a client changes a locked buffer: the new contents of the block |
| `Bio.Bcache.Bwrite` | kernel/bio.c:107-112 | the disk has the latest contents of the block |
| `Bio.Bcache.Unlock` | kernel/sleeplock.c:34-41 | unlocks the buffer |
| `Bio.Bcache.Unref` | kernel/bio.c:124-134 | drops a reference that is neither a pin nor the lock holder's; the last one moves the buffer to the front |
| `Bio.Bcache.MoveToFront` | kernel/bio.c:128-133 | the pointer stores move a buffer to the front of the ring |
| `Bio.Bcache.Brelse` | kernel/bio.c:117-137 | release of a buffer that is written or pinned keeps the cache coherent; the last reference moves it to the front of the ring |
| `Bio.Bcache.Bpin` | kernel/bio.c:140-144 | one more reference, which keeps the contents in memory until it is dropped |
| `Bio.Bcache.Bunpin` | kernel/bio.c:147-151 | one fewer; the last pin may go when the block is on disk or the buffer locked |
| `Bio.Bcache.LogWrite` | kernel/log.c:216-236 | pins a changed buffer the first time its block is logged and not when it is absorbed |
| `Bio.Bcache.LoggedUpdate` | kernel/log.c:216-236 | read, change, log and release: the new contents stay in the cache until installed, also for a block logged before |
| `Bio.Bcache.Install` | kernel/log.c:67-84 | writing a logged block to its home and unpinning it leaves the cache coherent |
| `Virtqueue.AtMostTwo` | kernel/virtio_disk.c:201-213 | no three chains exist at once |
| `Virtqueue.Partition` | kernel/virtio_disk.c:157-213 | free and held descriptors and three-element chains partition the table |
| `Virtqueue.NewChain` | kernel/virtio_disk.c:235-269 | formatting three held descriptors makes a chain |
| `Virtqueue.Advance` | kernel/virtio_disk.c:295-327 | a chain moves on to its next stage |
| `Virtqueue.Dissolve` | kernel/virtio_disk.c:288-289 | a chain becomes three held descriptors |
| `Virtqueue.Index` | kernel/virtio_disk.c:272-277 | 16-bit indices that wrap find the right ring slot |
| `Virtqueue.VirtioDisk.constructor` | kernel/virtio_disk.c:144-146 | all descriptors are free and the rings empty |
| `Virtqueue.VirtioDisk.AllocDesc` | kernel/virtio_disk.c:157-166 | takes the first free descriptor, or there is none |
| `Virtqueue.VirtioDisk.FreeDesc` | kernel/virtio_disk.c:170-182 | frees a descriptor in use; neither panic is reachable |
| `Virtqueue.VirtioDisk.Alloc3Desc` | kernel/virtio_disk.c:201-213 | three descriptors if and only if three are free; otherwise the table is as before |
| `Virtqueue.VirtioDisk.Submit` | kernel/virtio_disk.c:216-280 | posts a well-formed chain for the buffer and the operation exactly if three descriptors are free, and otherwise sleeps with nothing changed; requests in flight keep direction and sector |
| `Virtqueue.RoomForOne` | kernel/virtio_disk.c:201-232 | with at most one request in the table and nothing held there are descriptors for another |
| `Virtqueue.VirtioDisk.FormatChain` | kernel/virtio_disk.c:235-269 | the descriptors describe the request to the device |
| `Virtqueue.VirtioDisk.Post` | kernel/virtio_disk.c:272-277 | the head goes into the avail ring, after those before it |
| `Virtqueue.VirtioDisk.DeviceTake` | kernel/virtio_disk.c:272-281 | the device finds the heads in the order they were posted |
| `Virtqueue.VirtioDisk.DeviceComplete` | kernel/virtio_disk.c:309-315 | the device may complete any chain it has taken |
| `Virtqueue.VirtioDisk.Intr` | kernel/virtio_disk.c:295-327 | every completion since the last interrupt ends the wait for the buffer recorded for its head, and no other; the status panic is not reachable |
| `Virtqueue.VirtioDisk.SeeOne` | kernel/virtio_disk.c:312-324 | one turn of that loop |
| `Virtqueue.VirtioDisk.Finish` | kernel/virtio_disk.c:288-291 | frees exactly the three descriptors of the chain |
| `Virtqueue.VirtioDisk.FreeChain` | kernel/virtio_disk.c:186-197 | the loop follows the chain to its end |
| `Shell.RoundTrip` | user/sh.c:272-452 | every command tree is what parsecmd makes of its parenthesised printing, with all input consumed |
| `Shell.LineParses` | user/sh.c:351-452 | a printed command is read back wherever it stands |
| `ShellGrammar.GrammarExact` | user/sh.c:334-452 | parsecmd makes tree t of a line if and only if the grammar of pipelines, lists, background marks, blocks and redirections derives its tokens with tree t |
| `ShellGrammar.LineSound` | user/sh.c:351-365 | what parseline reads is a line of the grammar |
| `ShellGrammar.LineComplete` | user/sh.c:351-365 | every line of the grammar, followed by the end or a closing parenthesis, is read to its end with its tree |
| `ShellGrammar.AtomComplete` | user/sh.c:406-452 | the same for a block, and for words and redirections in any order |
| `ShellGrammar.Unambiguous` | user/sh.c:334-452 | the grammar gives a line at most one tree |
| `Shell.PeekTok` | user/sh.c:317-326 | skips white space and tells whether one of the tokens follows |
| `Shell.GetToken` | user/sh.c:272-314 | the next token, its span and where to go on |
| `Shell.ParseRedirs` | user/sh.c:381-403 | wraps a command in the redirections that follow |
| `Shell.ParseExecCmd` | user/sh.c:422-452 | the loop computes the recursive definition |
| `Shell.ParseWords` | user/sh.c:431-452 | words and redirections in any order, fewer than MAXARGS words |
| `Shell.ParseBlockCmd` | user/sh.c:406-419 | a parenthesised line and its redirections |
| `Shell.ParsePipeCmd` | user/sh.c:368-378 | pipes associate to the right |
| `Shell.ParseLineCmd` | user/sh.c:351-365 | background marks and lists |
| `Shell.ParseLine` | user/sh.c:351-365 | terminates on every input, consumes input left to right and yields spans that are whole words |
| `Shell.ParseCmd` | user/sh.c:334-348 | a parse of all of the input, or an error |
| `Shell.Nulterminate` | user/sh.c:456-499 | writes NUL at the end of every word of the tree and nowhere else |
| `Shell.EndsOutside` | user/sh.c:456-499 | no such position is inside a word |
| `Shell.ParseBuffer` | user/sh.c:334-348 | after parsing a buffer in place every word of the tree is an intact C string |
| `Regex.MatchHere` | user/grep.c:85-96 | true if and only if a prefix of the text, all of it under a final $, is in the language of the pattern |
| `Regex.MatchStar` | user/grep.c:99-106 | true if and only if some number of fitting characters leads to a match of the rest |
| `Regex.Match` | user/grep.c:73-82 | true if and only if the pattern is found |
| `Regex.FoundIs` | user/grep.c:73-82 | found means that some substring, a prefix under ^ and a suffix under $, is in the language |
| `Regex.AcceptsStar` | user/grep.c:89-90 | the starred branch is right for the language defined by splitting the text into pieces |
| `Regex.AcceptsOne` | user/grep.c:93-94 | so is the one-character branch |
| `Pipe.Ring.constructor` | kernel/pipe.c:33-36 | an empty pipe, open at both ends |
| `Pipe.Ring.Fifo` | kernel/pipe.c:77-134 | bytes delivered are a prefix of bytes stored; the wrapped counters differ by the number in flight, at most PIPESIZE |
| `Pipe.Ring.Write` | kernel/pipe.c:77-103 | stores a prefix of the bytes in order; sleeps only when the ring is full; nobody is left asleep with something to do unless it is killed after storing bytes |
| `Pipe.Ring.Read` | kernel/pipe.c:106-134 | delivers the oldest bytes in order and drops none on a failed copy; sleeps only when the ring is empty and a writer may come; nobody is left asleep with something to do |
| `Pipe.Ring.Close` | kernel/pipe.c:59-74 | closes one end and wakes the other; the pipe is to be freed when both are closed |
| `Pipe.KilledWriter` | kernel/pipe.c:77-103 | a run in which a killed writer leaves a reader asleep with a byte in the ring |
| `Pipe.FullIs` | kernel/pipe.c:88 | the test for a full ring is right under wrap-around |
| `Pipe.Slot` | kernel/pipe.c:95 | the slot of a wrapped counter is the slot of the count, PIPESIZE dividing 2^32 |

## Left out

- Run queues on several harts: the source takes no lock around them, so the scheduler is modelled on one hart, with steps one after another.
- Scheduler statistics, time_slices and entered_queue_tick: counters that nothing reads back.
- VmCode.Vm.Mappages: one page at a time, as every caller on user tables uses it; kvmmap and the kernel page table are not modelled.
- VmCode.Vm.UnmapOne: below the trapframe the page is always freed, as every caller does; unmapping without freeing is for the two pages above.
- VmCode.Vm.Uvmunmap: likewise.
- VmCode.Vm.Memmove: bytes of a user page only; page tables and user pages are kept in separate maps, since no page is both.
- vmfault checks one table and maps into the one of the current process; they are taken to be the same.
- copyinstr, uvmclear and exec: variants of the copies and mappings modelled.
- LogCode.Log.LogWrite: for an operation that keeps to the MAXOPBLOCKS blocks it reserved, which is what begin_op counts on.
- LogCode.Log.BeginOp: one pass of the loop; sleeping and waking between passes is left to the scheduler.
- FsCrash.WholeChunks: for a file write whose source is readable and that is alone in the log; other operations in the same group are covered by LogSafety.CrashAtomicity only.
- FsCode.FileSystem.Iput: the reference count and the valid flag are arguments; the inode table, ialloc, iget, directories and path names are not modelled.
- FsCode.FileSystem.Writei: a partly copied chunk that is not logged is shown as stored; that it may disappear again with its buffer is not modelled.
- FsCode.Budget: a bound; no run that needs all ten blocks is given, as it takes a disk of several bitmap blocks.
- mkfs and fsinit: the invariants of block ownership and of an empty log are the initial state.
- SchedulerCode.Scheduler.DemoteProcess: for a RUNNABLE process that is in the queue of its level or in none; on any other the source would queue a process twice or one that cannot run. Nothing calls it.
- Bio.Bcache.Bread: for a buffer nobody else has locked; waiting for the sleeplock is Lock, called when it is free.
- Sleeplock.NoDeadlock: a process woken by a kill counts as able to run, although the scheduler may find it only after a boost.
- Pipe.Ring.Write: that somebody sleeps on a channel is modelled, not who.
- Virtqueue: feature negotiation, registers, memory barriers and the transfer of data by the device are not modelled.
- Umalloc.Heap.Malloc: addresses count headers, so alignment of sbrk results is assumed; sizes stay below 2^31 bytes as sbrk takes an int.
- Shell: running commands, the built-in cd and reading lines.
- Regex: splitting a file into lines.
- UART, console, PLIC, boot code, assembly, swtch and trampoline: hardware effects. swtch is the end of one method and the beginning of another.
- kexec, system call argument fetching, wait and reparenting, and the other user programs: they would add easy members only.
