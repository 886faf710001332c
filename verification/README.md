# xv6-riscv in Dafny

A model of the core of the xv6-riscv kernel (with its added priority scheduler and shared memory) and of three of its user-level parts, with proofs of what they are for. `dafny verify dfyconfig.toml` checks the whole project.

| area | modules | main results |
|---|---|---|
| redo log | Log, LogDevice, MapSums | crash atomicity at every crash point, log space |
| buffer cache | BufferCache, BufferRing | transparency, the block that was asked for, one buffer per block, LRU ring |
| files | Bitmap, Inodes, Files, Image, FileSystem | block ownership, contents as byte sequences, transaction size, what the log has of each block |
| files over the log | CrashSafety | a power failure anywhere in filewrite, among other operations, leaves the file with whole transactions spliced in |
| processes | Processes, Scheduler, Family, FamilyRun, Progress | no lost exit, no deadlock, one processor per running process, best priority first, the family tree that the calls of a run make |
| memory | PageTables, Vm | trees as flat maps, every page in exactly one use, failure exactly for lack of memory |
| shared memory | SharedMemory, Shm | reference counts, same pages for all, no free page mapped |
| disk driver | Virtio | descriptors partitioned, the device reads what was asked for, each completion consumed once |
| pipes | Pipe | first in, first out across counter wrap |
| user allocator | FreeList, Arena, Umalloc, Allocator | tidy ring, heap divided into free and live blocks |
| shell | ShellTokens, ShellGrammar, Shell | parser exact for its grammar, words cut in place |
| grep | Grep | matcher exact for a reference semantics |
| shared | Params, Collections | constants of kernel/param.h and kernel/fs.h, facts about sequences and sets |

How it is laid out:

- Concurrent protocols (log, cache, processes) are state machines. A run is any finite sequence of steps of all processors, with power failures where they can happen, and the main theorems are about all runs.
- Code that works in place is a class whose methods follow the source loop by loop. LogDevice records the steps that its methods perform on the machine of Log; the methods of Ring compute the functions that the machine of BufferCache is made of; the methods of FileSystem record their calls of log_write, and CrashSafety takes these calls as steps of the machine of Log.
- Longer loops are split into a method for one turn and one for the loop.
- The history of a run of processes (module Family) is told by their calls alone; the fields of the process table are then shown to agree with it.
- Ghost fields (owners, uses, histories) are the accounts that the invariants speak about. They are not in the source.
- Panics of the source that callers can provoke are preconditions or an explicit outcome; those that the code is meant to exclude are shown to be out of reach.
- Page tables follow section 4.4 of the RISC-V Privileged Architecture, descriptors sections 2.6 and 5.2 of VirtIO 1.1, the allocator section 8.7 of The C Programming Language (second edition).

Places where the source does less than one might expect:

- `malloc` passes its byte count to `sbrk`, which takes an int. Allocator.SbrkArgument gives the exact largest request whose size arrives there, Allocator.SbrkMistaken what arrives for larger ones; Malloc requires a request up to that size, or one that a free block serves.
- `writei` copies into a cached block before `log_write`. When the copy fails part way in a block that the file has, the block stays changed in the cache without being logged, although the call reports fewer bytes. FileSystem.TornIff says exactly when, by the state before the call, for a file whose blocks have no gap (every operation keeps files so); FileSystem.InsideReaches says it for writes within a file, and FileSystem.TornWrite is a call that does it.
- A failed `shm_open` may leave a region that it has just created in the table, with all its pages and no attachment. Shm.Open says exactly when by the state before the call, and Shm.StrayCall makes such a call.
- `virtio_disk_rw` computes the sector of a block in 32 bits. Virtio.SectorIs: it is right exactly for block numbers below 2 to the 31; a larger one gets the sector of another block.

## Model

| member | source | states |
|---|---|---|
| Log.RunAgrees | Project1_xv6_custom_sys_calls/xv6-riscv/kernel/log.c:117-204 | over every run from the first boot, the disk and the cached blocks agree step by step with an atomic disk whose transactions take effect all at once |
| Log.CrashAtomicity | Project1_xv6_custom_sys_calls/xv6-riscv/kernel/log.c:65-124 | after any run, with power failures between any two disk writes (those of recovery too), recovery leaves exactly the blocks of the transactions whose non-empty header reached the disk; calls read the pending contents; nothing becomes durable while an operation is running |
| Log.IdleHome | Project1_xv6_custom_sys_calls/xv6-riscv/kernel/log.c:117-124 | with an empty log and no commit the home blocks are what is durable and what is pending |
| Log.OpenKeeps | Project1_xv6_custom_sys_calls/xv6-riscv/kernel/log.c:147-176 | no step makes anything durable while an operation is running |
| Log.NoPanic | Project1_xv6_custom_sys_calls/xv6-riscv/kernel/log.c:126-176 | in every run the log list plus all unspent reservations fit in the log, a commit never overlaps an operation, and no allowed step reaches a panic |
| Log.MayWrite | Project1_xv6_custom_sys_calls/xv6-riscv/kernel/log.c:215-236 | a write by an operation with an unspent unit finds room in the log and an outstanding operation |
| Log.StepAgrees | Project1_xv6_custom_sys_calls/xv6-riscv/kernel/log.c:178-204 | each single step of the code is a step of the atomic disk and does not panic |
| Log.StepReserves | Project1_xv6_custom_sys_calls/xv6-riscv/kernel/log.c:126-143 | each single step keeps the account of reserved log space |
| Log.BeginReserves | Project1_xv6_custom_sys_calls/xv6-riscv/kernel/log.c:126-143 | admitting an operation reserves its ten blocks within the log |
| Log.WriteReserves | Project1_xv6_custom_sys_calls/xv6-riscv/kernel/log.c:215-236 | adding or absorbing a block never panics and spends at most one unit of the reservation |
| Log.EndReserves | Project1_xv6_custom_sys_calls/xv6-riscv/kernel/log.c:147-176 | ending an operation never panics and gives its unspent units back |
| Log.WriteClean | Project1_xv6_custom_sys_calls/xv6-riscv/kernel/log.c:215-236 | after log_write every block that differs from its home is in the list |
| Log.Slot | Project1_xv6_custom_sys_calls/xv6-riscv/kernel/log.c:226-230 | the slot of a block is the first entry that names it, or the end of the list |
| Log.InstallOne | Project1_xv6_custom_sys_calls/xv6-riscv/kernel/log.c:65-84 | copying one log block home, any number of times, does not change what recovery leaves |
| Log.RecoveredIs | Project1_xv6_custom_sys_calls/xv6-riscv/kernel/log.c:117-124 | a log that holds the new contents of the listed blocks recovers to exactly those contents |
| Log.LoggingAgrees | Project1_xv6_custom_sys_calls/xv6-riscv/kernel/log.c:178-192 | copying to the log changes nothing durable; writing the header makes all pending writes durable |
| Log.InstallingInv | Project1_xv6_custom_sys_calls/xv6-riscv/kernel/log.c:65-84 | in a commit the block that is installed already is what the cache holds |
| Log.ErasingAgrees | Project1_xv6_custom_sys_calls/xv6-riscv/kernel/log.c:194-204 | erasing the header, in commit and in recovery, loses nothing: all blocks are home |
| Log.RecoveringAgrees | Project1_xv6_custom_sys_calls/xv6-riscv/kernel/log.c:117-124 | installing during recovery changes neither what is durable nor what a second recovery would leave |
| Log.CommitInstalls | Project1_xv6_custom_sys_calls/xv6-riscv/kernel/log.c:194-204 | a finished commit has made all pending writes durable and copied them home |
| Log.QuietKeeps | Project1_xv6_custom_sys_calls/xv6-riscv/kernel/log.c:117-124 | from the commit point on, and during recovery, what is durable stays the same |
| LogDevice.HeadRoundTrip | Project1_xv6_custom_sys_calls/xv6-riscv/kernel/log.c:86-115 | a header block written from a list, over any older contents, reads back as that list |
| LogDevice.WriteLogBlock | Project1_xv6_custom_sys_calls/xv6-riscv/kernel/log.c:178-192 | writing a log block changes that log block and no home block or header |
| LogDevice.LogFits | Project1_xv6_custom_sys_calls/xv6-riscv/kernel/log.c:178-192 | written through the cache, a log block changes neither a home block nor the agreement of cache and disk |
| LogDevice.WriteHomeBlock | Project1_xv6_custom_sys_calls/xv6-riscv/kernel/log.c:65-84 | writing a home block changes that block and neither log nor header |
| LogDevice.WriteHeadBlock | Project1_xv6_custom_sys_calls/xv6-riscv/kernel/log.c:100-115 | writing the header replaces the list and changes no other part of the disk |
| LogDevice.LogDevice.constructor | Project1_xv6_custom_sys_calls/xv6-riscv/kernel/log.c:53-63 | a formatted disk, before its first recovery, is a run of the machine |
| LogDevice.LogDevice.BwriteLog | Project1_xv6_custom_sys_calls/xv6-riscv/kernel/log.c:185-188 | one log block gets the data and the home blocks stay |
| LogDevice.LogDevice.BwriteHome | Project1_xv6_custom_sys_calls/xv6-riscv/kernel/log.c:65-84 | one home block gets the data, on disk and in the cache |
| LogDevice.LogDevice.WriteHead | Project1_xv6_custom_sys_calls/xv6-riscv/kernel/log.c:100-115 | the header on disk is the list in memory, nothing else on disk changes |
| LogDevice.LogDevice.WriteLog | Project1_xv6_custom_sys_calls/xv6-riscv/kernel/log.c:178-192 | the loop performs one logging step of the machine for each listed block |
| LogDevice.LogDevice.InstallTrans | Project1_xv6_custom_sys_calls/xv6-riscv/kernel/log.c:65-84 | the loop performs one install step of the machine for each listed block, in commit and in recovery |
| LogDevice.LogDevice.Commit | Project1_xv6_custom_sys_calls/xv6-riscv/kernel/log.c:194-204 | the home blocks on disk equal all writes that were pending when the commit began |
| LogDevice.LogDevice.BeginOp | Project1_xv6_custom_sys_calls/xv6-riscv/kernel/log.c:126-143 | admits exactly when no commit runs and the reservations still fit |
| LogDevice.LogDevice.AddEntry | Project1_xv6_custom_sys_calls/xv6-riscv/kernel/log.c:226-234 | the list gains the block unless it is listed already |
| LogDevice.LogDevice.LogWrite | Project1_xv6_custom_sys_calls/xv6-riscv/kernel/log.c:215-236 | the cached block has the new contents and the step is one of the machine, without panic |
| LogDevice.LogDevice.EndOp | Project1_xv6_custom_sys_calls/xv6-riscv/kernel/log.c:147-176 | the last operation out commits: the log is empty and the disk holds all pending writes |
| LogDevice.LogDevice.ReadHead | Project1_xv6_custom_sys_calls/xv6-riscv/kernel/log.c:86-98 | the list in memory is the one on disk |
| LogDevice.LogDevice.RecoverFromLog | Project1_xv6_custom_sys_calls/xv6-riscv/kernel/log.c:117-124 | the home blocks are exactly what was durable before, and the log is empty |
| LogDevice.LogDevice.PowerFails | Project1_xv6_custom_sys_calls/xv6-riscv/kernel/log.c:117-124 | the disk stays, all memory is lost, and the machine is down |
| BufferCache.CacheTransparency | Project1_xv6_custom_sys_calls/xv6-riscv/kernel/bio.c:36-151 | in every run in which callers write or log_write what they change before they release it, a read fills its buffer with what was last written to the block, a block that is newer than the disk or waits for installation by the log has a referenced, filled buffer with its latest contents, no block has two buffers, and the LRU order is a permutation of all buffers |
| BufferCache.RunInv | Project1_xv6_custom_sys_calls/xv6-riscv/kernel/bio.c:36-151 | the cache invariant holds in every reachable state |
| BufferCache.StepInv | Project1_xv6_custom_sys_calls/xv6-riscv/kernel/bio.c:58-151 | every allowed step of a caller keeps the cache invariant |
| BufferCache.WrittenIsLatest | Project1_xv6_custom_sys_calls/xv6-riscv/kernel/bio.c:91-112 | the latest contents kept by the model are the last write of each block in the history of the run |
| BufferCache.ReferencedStays | Project1_xv6_custom_sys_calls/xv6-riscv/kernel/bio.c:58-89 | a buffer with a reference keeps its block through every step |
| BufferCache.GetChoosesLru | Project1_xv6_custom_sys_calls/xv6-riscv/kernel/bio.c:58-89 | a recycled buffer is the least recently released of those without reference; a request fails exactly when the block is not cached and every buffer is referenced |
| BufferCache.GetObtains | Project1_xv6_custom_sys_calls/xv6-riscv/kernel/bio.c:58-89 | bget turns the chosen buffer into one of the block asked for, marks it invalid unless it was that block's, and leaves all other buffers, the order and the disk alone; its process waits for this buffer and no other |
| BufferCache.UsesAsked | Project1_xv6_custom_sys_calls/xv6-riscv/kernel/bio.c:58-137 | over every run a process waits for or holds exactly the buffers that it asked for and has not released, and each is a buffer of the block it asked for |
| BufferCache.BreadReturns | Project1_xv6_custom_sys_calls/xv6-riscv/kernel/bio.c:91-103 | in every run a buffer that a process holds is the one of the block it called bget for, and once filled it has the last contents written to that block by anyone |
| BufferCache.GetAnswers | Project1_xv6_custom_sys_calls/xv6-riscv/kernel/bio.c:58-89 | every call of bget that does not panic gives its process a buffer of the block |
| BufferCache.StepFollows | Project1_xv6_custom_sys_calls/xv6-riscv/kernel/bio.c:58-151 | no step of anyone changes the block of a buffer that a process uses |
| BufferCache.ChosenFresh | Project1_xv6_custom_sys_calls/xv6-riscv/kernel/bio.c:58-89 | the chosen buffer either has the block already or is unreferenced and no other has it |
| BufferCache.UnusedIsClean | Project1_xv6_custom_sys_calls/xv6-riscv/kernel/bio.c:75-87 | a buffer without reference is not locked, not pinned and not newer than the disk, so recycling without write-back loses nothing |
| BufferCache.GetInv | Project1_xv6_custom_sys_calls/xv6-riscv/kernel/bio.c:58-89 | taking a buffer, cached or recycled, keeps the invariant |
| BufferCache.GetPinned | Project1_xv6_custom_sys_calls/xv6-riscv/kernel/bio.c:58-89 | taking a buffer takes none away from a block that the log has listed and not installed |
| BufferCache.GetTransparent | Project1_xv6_custom_sys_calls/xv6-riscv/kernel/bio.c:75-87 | recycling loses no contents that are newer than the disk |
| BufferCache.OnlyKeeper | Project1_xv6_custom_sys_calls/xv6-riscv/kernel/bio.c:65-73 | newer contents of a block can only be in its one buffer, so a fill reads the latest |
| BufferCache.KeptBuffer | Project1_xv6_custom_sys_calls/xv6-riscv/kernel/bio.c:75-87 | a block that is newer than the disk or awaited by the log is in a buffer that stays |
| BufferCache.DataStepFine | Project1_xv6_custom_sys_calls/xv6-riscv/kernel/bio.c:91-112 | filling, changing and writing a locked buffer keep it in step with its block |
| BufferCache.DropFine | Project1_xv6_custom_sys_calls/xv6-riscv/kernel/bio.c:115-137 | a release leaves the count of references right and the list in order of release |
| BufferCache.DropInv | Project1_xv6_custom_sys_calls/xv6-riscv/kernel/bio.c:115-137 | releasing a buffer keeps the invariant and the order by time of last release |
| BufferCache.LockedStepInv | Project1_xv6_custom_sys_calls/xv6-riscv/kernel/bio.c:91-112 | filling, changing, writing, logging, unpinning and releasing the lock keep the invariant |
| BufferCache.ToFrontIs | Project1_xv6_custom_sys_calls/xv6-riscv/kernel/bio.c:126-134 | moving a buffer to the front takes it from its one place and keeps all others in order |
| BufferCache.FrontSorted | Project1_xv6_custom_sys_calls/xv6-riscv/kernel/bio.c:126-134 | the list stays in order of last release |
| BufferCache.FirstMatch | Project1_xv6_custom_sys_calls/xv6-riscv/kernel/bio.c:65-73 | the first buffer of the list for the block, or none |
| BufferCache.LastUnused | Project1_xv6_custom_sys_calls/xv6-riscv/kernel/bio.c:75-87 | the last buffer of the list without reference, or none |
| BufferRing.Unlink | Project1_xv6_custom_sys_calls/xv6-riscv/kernel/bio.c:128-129 | the two pointer writes take exactly one node out of a doubly linked ring |
| BufferRing.PushFront | Project1_xv6_custom_sys_calls/xv6-riscv/kernel/bio.c:130-133 | the four pointer writes put a node at the front of a doubly linked ring |
| BufferRing.Ring.constructor | Project1_xv6_custom_sys_calls/xv6-riscv/kernel/bio.c:36-53 | binit makes a doubly linked ring of all buffers |
| BufferRing.Ring.Lookup | Project1_xv6_custom_sys_calls/xv6-riscv/kernel/bio.c:64-73 | the walk along next ends at the first buffer of the block, or back at the head |
| BufferRing.Ring.Oldest | Project1_xv6_custom_sys_calls/xv6-riscv/kernel/bio.c:75-87 | the walk along prev ends at the last buffer without reference, or back at the head |
| BufferRing.Ring.Bget | Project1_xv6_custom_sys_calls/xv6-riscv/kernel/bio.c:58-89 | both list walks return the buffer of the specification; it is then a buffer of the block that was asked for, with one more reference, and keeps its contents only if they are that block's; no other buffer changes |
| BufferRing.Ring.Drop | Project1_xv6_custom_sys_calls/xv6-riscv/kernel/bio.c:115-137 | the reference goes, and at zero the buffer moves to the front of the ring |
| BufferRing.Ring.MoveToFront | Project1_xv6_custom_sys_calls/xv6-riscv/kernel/bio.c:126-134 | the rewired ring is the list with that buffer first |
| BufferRing.Ring.Fill | Project1_xv6_custom_sys_calls/xv6-riscv/kernel/bio.c:91-103 | an invalid buffer gets the block from the disk, a valid one is left alone |
| BufferRing.Ring.Bwrite | Project1_xv6_custom_sys_calls/xv6-riscv/kernel/bio.c:105-112 | the block on disk becomes the buffer, and only if the caller holds its lock |
| BufferRing.Ring.Bpin | Project1_xv6_custom_sys_calls/xv6-riscv/kernel/bio.c:139-144 | one more reference on that buffer, nothing else |
| BufferRing.Ring.Bunpin | Project1_xv6_custom_sys_calls/xv6-riscv/kernel/bio.c:146-151 | one reference less on that buffer, nothing else |
| BufferCache.LogStepFine | Project1_xv6_custom_sys_calls/xv6-riscv/kernel/log.c:215-236 | log_write pins exactly the blocks that join the list, once each, and the unpinning of install_trans takes that one pin away |
| BufferCache.ClearInv | Project1_xv6_custom_sys_calls/xv6-riscv/kernel/log.c:194-204 | the list may be emptied when every block in it is installed, and then nothing stays pinned |
| Processes.NoLostExit | Project1_xv6_custom_sys_calls/xv6-riscv/kernel/proc.c:378-425 | in every interleaving of all processors, while wait_lock is free no process sleeps on its own channel with a zombie child, its own or one given to init |
| Processes.RunningIsCurrent | Project1_xv6_custom_sys_calls/xv6-riscv/kernel/proc.c:434-508 | in every interleaving, a process whose lock is free is RUNNING exactly when it is the current process of a processor, and of one processor only |
| Processes.SchedChecks | Project1_xv6_custom_sys_calls/xv6-riscv/kernel/proc.c:490-508 | whenever a process has switched to the scheduler it is not RUNNING and its processor holds its lock and no other, so the panics of sched are not reached |
| Scheduler.SchedulerPicksBest | Project1_xv6_custom_sys_calls/xv6-riscv/kernel/proc.c:434-481 | in every interleaving of all processors, if no process changed its state or priority since a scheduler began its first pass, then every step of its two passes brings it nearer to their end, which is the dispatch of the RUNNABLE process of least priority value, lowest index on ties, or waiting for interrupts exactly when there is none |
| Scheduler.RunScanned | Project1_xv6_custom_sys_calls/xv6-riscv/kernel/proc.c:434-481 | over such a run the scheduler has seen the least priority among the slots that it has passed, and in its second pass none of them had it |
| Scheduler.Pass1Step | Project1_xv6_custom_sys_calls/xv6-riscv/kernel/proc.c:447-455 | a step of the first pass keeps the least priority of the slots passed; at the end none is RUNNABLE or the second pass begins |
| Scheduler.Pass2Step | Project1_xv6_custom_sys_calls/xv6-riscv/kernel/proc.c:457-474 | a step of the second pass dispatches the first process with the least priority, or passes one that has not |
| Scheduler.OtherStep | Project1_xv6_custom_sys_calls/xv6-riscv/kernel/proc.c:434-481 | no step of another processor moves a scheduler |
| Scheduler.DispatchDisturbs | Project1_xv6_custom_sys_calls/xv6-riscv/kernel/proc.c:461-465 | a dispatch changes a state, so it ends the stretch in which nothing changes |
| Family.FamilyTree | Project1_xv6_custom_sys_calls/xv6-riscv/kernel/proc.c:269-425 | in every interleaving the parent, kill mark and priority of every slot are what the calls of fork, exit, wait, kill and setpriority in the run make them; every process but init has a parent that has not exited, free slots have none, a zombie has called exit and has no children left; a process that called exit stays there, and one that called sleep is asleep or about to be until wakeup of its channel or kill |
| Family.RunKin | Project1_xv6_custom_sys_calls/xv6-riscv/kernel/proc.c:166-425 | over every run the parent fields agree with the history of the calls, and what each process in fork, exit or wait relies on about its children holds |
| Family.StepKin | Project1_xv6_custom_sys_calls/xv6-riscv/kernel/proc.c:166-629 | every step of any processor keeps that agreement |
| Family.CallBegins | Project1_xv6_custom_sys_calls/xv6-riscv/kernel/proc.c:269-279 | fork takes a slot that was UNUSED, without a parent, and changes no other; wait enters its loop |
| Family.ForkBears | Project1_xv6_custom_sys_calls/xv6-riscv/kernel/proc.c:269-316 | in every run a slot that was taken becomes a process only by the last step of the process that took it, and then is its child, or it is given back because memory could not be copied |
| Family.LinkKin | Project1_xv6_custom_sys_calls/xv6-riscv/kernel/proc.c:307-309 | the step under wait_lock makes the new process the caller's child and nobody else's |
| Family.ReparentKin | Project1_xv6_custom_sys_calls/xv6-riscv/kernel/proc.c:320-331 | a child of an exiting process becomes a child of init |
| Family.WaitCollects | Project1_xv6_custom_sys_calls/xv6-riscv/kernel/proc.c:392-411 | in every run a zombie slot is freed only by wait of its parent as the history has it, which then returns |
| Family.WaitReturns | Project1_xv6_custom_sys_calls/xv6-riscv/kernel/proc.c:378-425 | wait returns only with a zombie child, after a kill, or without children; after a scan of all slots it gives up exactly if killed or without children |
| Family.WaitSleeps | Project1_xv6_custom_sys_calls/xv6-riscv/kernel/proc.c:422-423 | a process that goes to sleep in wait has children and none of them is a zombie |
| Family.SleeperWakes | Project1_xv6_custom_sys_calls/xv6-riscv/kernel/proc.c:558-629 | a sleeper outside wait is woken by wakeup of the channel it called sleep with and by kill, each of which does wake it, and by nothing else; one in wait by kill or an exiting process |
| Family.StepCause | Project1_xv6_custom_sys_calls/xv6-riscv/kernel/proc.c:269-629 | the state of a process that does not run changes only for a listed reason: fork, wakeup of its channel, kill, dispatch, or wait of a process at its slot |
| Family.NapLocked | Project1_xv6_custom_sys_calls/xv6-riscv/kernel/proc.c:560-575 | from the call of sleep until it is asleep a process cannot be reached by wakeup or kill, so neither is lost |
| FamilyRun.Life | Project1_xv6_custom_sys_calls/xv6-riscv/kernel/proc.c:269-425 | a run in which init forks a child that exits and is a zombie child of init, and its continuation in which wait collects it |
| FamilyRun.Forks | Project1_xv6_custom_sys_calls/xv6-riscv/kernel/proc.c:269-316 | undisturbed, fork ends with a RUNNABLE child of the caller |
| FamilyRun.Exits | Project1_xv6_custom_sys_calls/xv6-riscv/kernel/proc.c:336-376 | undisturbed, exit of a process without children ends with a zombie |
| FamilyRun.Collects | Project1_xv6_custom_sys_calls/xv6-riscv/kernel/proc.c:378-425 | undisturbed, wait frees the slot of the first zombie child |
| FamilyRun.Scheduled | Project1_xv6_custom_sys_calls/xv6-riscv/kernel/proc.c:434-481 | undisturbed, the only RUNNABLE process is dispatched |
| Progress.NoDeadlock | Project1_xv6_custom_sys_calls/xv6-riscv/kernel/proc.c:269-605 | in every interleaving each processor can go on, or waits for a lock whose holder can, or for wait_lock whose holder waits for a lock whose holder can |
| Progress.CanIf | Project1_xv6_custom_sys_calls/xv6-riscv/kernel/proc.c:269-605 | a processor can take its next step whenever the one lock it needs for it is free |
| Progress.HolderFree | Project1_xv6_custom_sys_calls/xv6-riscv/kernel/proc.c:378-605 | whoever holds the lock of a process needs no other lock to go on |
| Progress.WaitHolder | Project1_xv6_custom_sys_calls/xv6-riscv/kernel/proc.c:307-425 | whoever holds wait_lock does not wait for it |
| Processes.RunInv | Project1_xv6_custom_sys_calls/xv6-riscv/kernel/proc.c:99-629 | the protocol invariant holds in every reachable state |
| Processes.StepInv | Project1_xv6_custom_sys_calls/xv6-riscv/kernel/proc.c:269-629 | every step of every process and scheduler keeps the protocol invariant |
| Processes.StartInv | Project1_xv6_custom_sys_calls/xv6-riscv/kernel/proc.c:229-242 | the first process alone satisfies the invariant |
| Processes.WaitExclusive | Project1_xv6_custom_sys_calls/xv6-riscv/kernel/proc.c:378-425 | at most one process is inside a section that holds wait_lock |
| Processes.WaitScanInv | Project1_xv6_custom_sys_calls/xv6-riscv/kernel/proc.c:387-420 | scanning for children under wait_lock keeps the invariant |
| Processes.CollectInv | Project1_xv6_custom_sys_calls/xv6-riscv/kernel/proc.c:395-411 | collecting a zombie frees it and forgets its parent, and loses no other exit |
| Processes.WaitSleepAwaited | Project1_xv6_custom_sys_calls/xv6-riscv/kernel/proc.c:560-587 | letting wait_lock go inside sleep is safe: no child of the sleeper is a zombie at that moment |
| Processes.WaitSleepInv | Project1_xv6_custom_sys_calls/xv6-riscv/kernel/proc.c:422-423 | going to sleep in wait keeps the invariant |
| Processes.ReparentInv | Project1_xv6_custom_sys_calls/xv6-riscv/kernel/proc.c:318-331 | giving a child to init leaves init to be woken before wait_lock is released |
| Processes.ReparentAwaited | Project1_xv6_custom_sys_calls/xv6-riscv/kernel/proc.c:318-331 | a zombie given to init has its wakeup on the way |
| Processes.ExitWakeInv | Project1_xv6_custom_sys_calls/xv6-riscv/kernel/proc.c:589-605 | each turn of wakeup during exit keeps the invariant |
| Processes.ExitZombieInv | Project1_xv6_custom_sys_calls/xv6-riscv/kernel/proc.c:366-371 | becoming a zombie under the own lock and wait_lock, after the wakeup, loses no exit |
| Processes.ExitMoveInv | Project1_xv6_custom_sys_calls/xv6-riscv/kernel/proc.c:358-364 | the other steps of exit keep the invariant |
| Processes.CallForkInv | Project1_xv6_custom_sys_calls/xv6-riscv/kernel/proc.c:276-279 | taking an unused slot for a new process keeps the invariant |
| Processes.ForkInv | Project1_xv6_custom_sys_calls/xv6-riscv/kernel/proc.c:281-316 | linking the child to its parent and making it RUNNABLE keep the invariant of locks, processors and wakeups; whose child it is, is in Family.ForkBears |
| Processes.YieldInv | Project1_xv6_custom_sys_calls/xv6-riscv/kernel/proc.c:511-519 | giving up the processor keeps the invariant, the lock passing to the scheduler |
| Processes.SwitchPlaced | Project1_xv6_custom_sys_calls/xv6-riscv/kernel/proc.c:490-508 | a process that switches to the scheduler is still known to its processor |
| Processes.SleepInv | Project1_xv6_custom_sys_calls/xv6-riscv/kernel/proc.c:558-587 | sleeping, and the last switch of an exiting process, keep the invariant |
| Processes.ResumeInv | Project1_xv6_custom_sys_calls/xv6-riscv/kernel/proc.c:558-587 | a resumed process releases its lock with the invariant kept |
| Processes.DispatchInv | Project1_xv6_custom_sys_calls/xv6-riscv/kernel/proc.c:461-465 | dispatching a RUNNABLE process makes it the current process of one processor |
| Processes.BackInv | Project1_xv6_custom_sys_calls/xv6-riscv/kernel/proc.c:465-472 | the return to the scheduler frees the processor and the lock |
| Processes.TouchInv | Project1_xv6_custom_sys_calls/xv6-riscv/kernel/proc.c:589-629 | wakeup, kill and setpriority on a process whose lock is free keep the invariant |
| SharedMemory.ResizeInv | Project1_xv6_custom_sys_calls/xv6-riscv/kernel/sysproc.c:39-65 | a process whose size changes without cutting off an attached region keeps the invariant |
| Shm.Shm.Sbrk | Project1_xv6_custom_sys_calls/xv6-riscv/kernel/sysproc.c:39-65 | the size grows lazily up to the trapframe or shrinks and takes the pages above it away; -1 exactly when it would pass the trapframe; regions stay attached |
| Allocator.Allocator.Malloc | Project1_xv6_custom_sys_calls/xv6-riscv/user/umalloc.c:63-90 | the block handed out is cut from the first free block that fits on the way from where the last call stopped, or, if none fits, from where the memory of one call of sbrk was put in; it fails exactly when nothing fits and sbrk refuses, and then changes nothing; both laps end |
| Allocator.Allocator.Free | Project1_xv6_custom_sys_calls/xv6-riscv/user/umalloc.c:24-44 | the freed block and only it joins the free blocks, merged with both neighbours that it touches; the list walk ends |
| Allocator.Allocator.Link | Project1_xv6_custom_sys_calls/xv6-riscv/user/umalloc.c:33-42 | the pointer writes of free, in their order, compute the merged headers |
| Allocator.Allocator.Morecore | Project1_xv6_custom_sys_calls/xv6-riscv/user/umalloc.c:46-61 | a grant adds exactly its units to the free blocks, at least as many as asked for; a refusal changes nothing |
| Allocator.Allocator.Claim | Project1_xv6_custom_sys_calls/xv6-riscv/user/umalloc.c:57-60 | memory from sbrk becomes a block that is freed at once |
| Allocator.Allocator.Search | Project1_xv6_custom_sys_calls/xv6-riscv/user/umalloc.c:74-89 | one lap of the ring finds the first block that fits after freep, or shows that none does |
| Allocator.Allocator.HandOut | Project1_xv6_custom_sys_calls/xv6-riscv/user/umalloc.c:75-85 | the units are cut from the end of the block, or the block leaves the ring when it fits exactly |
| Allocator.Allocator.Detach | Project1_xv6_custom_sys_calls/xv6-riscv/user/umalloc.c:76-82 | the writes of malloc, in their order, shorten the block or unlink it |
| Allocator.Allocator.Place | Project1_xv6_custom_sys_calls/xv6-riscv/user/umalloc.c:29-32 | the walk stops at the last block below the freed one, around the wrap of the ring |
| Allocator.Allocator.Begin | Project1_xv6_custom_sys_calls/xv6-riscv/user/umalloc.c:70-73 | the first call makes a ring of the empty base block |
| Allocator.Allocator.constructor | Project1_xv6_custom_sys_calls/xv6-riscv/user/umalloc.c:14-22 | an allocator that has nothing yet |
| Allocator.HandedOut | Project1_xv6_custom_sys_calls/xv6-riscv/user/umalloc.c:63-90 | a new block overlaps no live block, lies in the heap, and needs no new memory when a free block fits |
| Allocator.SbrkArgument | Project1_xv6_custom_sys_calls/xv6-riscv/user/umalloc.c:46-61 | of all requests that fit in the unsigned argument, exactly those of at most 0x7FFFFFE0 bytes reach sbrk with their size intact |
| Allocator.SbrkMistaken | Project1_xv6_custom_sys_calls/xv6-riscv/user/umalloc.c:46-61 | the next larger request asks sbrk for minus 2 to the 31 bytes, and the largest one for 16 bytes |
| Allocator.WalkFits | Project1_xv6_custom_sys_calls/xv6-riscv/user/umalloc.c:74-85 | the block where the search stops is the first that fits |
| Allocator.WalkFails | Project1_xv6_custom_sys_calls/xv6-riscv/user/umalloc.c:86-88 | back at freep, no block of the whole ring fits |
| Umalloc.UnitsFor | Project1_xv6_custom_sys_calls/xv6-riscv/user/umalloc.c:69-69 | the units of a request hold its bytes and the header with less than one unit to spare |
| Umalloc.UniteRing | Project1_xv6_custom_sys_calls/xv6-riscv/user/umalloc.c:33-43 | the two merge tests and their pointer writes turn the ring of the free list into the ring of the list with the block inserted and merged |
| Umalloc.UniteJoins | Project1_xv6_custom_sys_calls/xv6-riscv/user/umalloc.c:33-42 | the two address tests are true exactly for neighbours in the list that touch the block |
| Umalloc.StopsAt | Project1_xv6_custom_sys_calls/xv6-riscv/user/umalloc.c:30-32 | the stopping test of the walk, wrap included, holds at exactly one node |
| Umalloc.FreeHolds | Project1_xv6_custom_sys_calls/xv6-riscv/user/umalloc.c:24-44 | after free the headers describe the heap with that block free |
| Umalloc.TakeRing | Project1_xv6_custom_sys_calls/xv6-riscv/user/umalloc.c:76-82 | both ways of cutting a block leave a ring of the remaining free blocks |
| Umalloc.TakeSome | Project1_xv6_custom_sys_calls/xv6-riscv/user/umalloc.c:78-82 | shortening a block leaves a ring, and the header of the part cut off is no node of it |
| Umalloc.TakeHolds | Project1_xv6_custom_sys_calls/xv6-riscv/user/umalloc.c:75-84 | after a block is handed out the headers describe the heap with it live |
| Umalloc.GrowHolds | Project1_xv6_custom_sys_calls/xv6-riscv/user/umalloc.c:54-59 | a fresh stretch of memory above the break may be written as a live block |
| Umalloc.UnlinkRing | Project1_xv6_custom_sys_calls/xv6-riscv/user/umalloc.c:76-77 | taking a node out leaves a ring |
| Umalloc.LinkRing | Project1_xv6_custom_sys_calls/xv6-riscv/user/umalloc.c:37-42 | linking a block in leaves a ring |
| Umalloc.MergeRing | Project1_xv6_custom_sys_calls/xv6-riscv/user/umalloc.c:33-40 | merging two neighbours leaves a ring |
| FreeList.InsertTidy | Project1_xv6_custom_sys_calls/xv6-riscv/user/umalloc.c:24-44 | freeing keeps the list in address order with no two blocks touching |
| FreeList.JoinedBetween | Project1_xv6_custom_sys_calls/xv6-riscv/user/umalloc.c:33-42 | the merged block touches neither neighbour |
| FreeList.InsertHas | Project1_xv6_custom_sys_calls/xv6-riscv/user/umalloc.c:24-44 | freeing adds exactly the units of the block |
| FreeList.CutHas | Project1_xv6_custom_sys_calls/xv6-riscv/user/umalloc.c:75-82 | cutting removes exactly the units that are handed out |
| FreeList.Below | Project1_xv6_custom_sys_calls/xv6-riscv/user/umalloc.c:30-32 | the number of free blocks below an address |
| Arena.FreedDivided | Project1_xv6_custom_sys_calls/xv6-riscv/user/umalloc.c:24-44 | free and live blocks still divide the memory obtained from sbrk, with no overlap, after a free |
| Arena.FreedUnits | Project1_xv6_custom_sys_calls/xv6-riscv/user/umalloc.c:24-44 | free gives back exactly the units of the block: they become free, nobody holds them, all other blocks handed out stay |
| Arena.GivenDivided | Project1_xv6_custom_sys_calls/xv6-riscv/user/umalloc.c:75-85 | the same after a block is handed out |
| Arena.GrownDivided | Project1_xv6_custom_sys_calls/xv6-riscv/user/umalloc.c:46-61 | the same after new memory is added |
| Arena.ExtendedDivided | Project1_xv6_custom_sys_calls/xv6-riscv/user/umalloc.c:46-61 | the same after new memory is added and freed into the list |
| Bitmap.SetIs | Project1_xv6_custom_sys_calls/xv6-riscv/kernel/fs.c:76-78 | setting or clearing the bit of a block changes that bit of the whole bitmap and no other |
| Bitmap.MaskBits | Project1_xv6_custom_sys_calls/xv6-riscv/kernel/fs.c:99-103 | a byte mask touches one bit of its byte |
| Bitmap.SetSays | Project1_xv6_custom_sys_calls/xv6-riscv/kernel/fs.c:64-106 | the bitmap and the account of used blocks change together |
| Inodes.PutWordIs | Project1_xv6_custom_sys_calls/xv6-riscv/kernel/fs.c:430-438 | a 32-bit little-endian entry of an indirect block reads back as written and other entries stay |
| Inodes.SetAddrOwned | Project1_xv6_custom_sys_calls/xv6-riscv/kernel/fs.c:411-429 | hanging a fresh block on an inode keeps every block marked used and referenced exactly once |
| Inodes.SetEntryOwned | Project1_xv6_custom_sys_calls/xv6-riscv/kernel/fs.c:430-438 | the same for an entry of the indirect block |
| Inodes.FreeAddrOwned | Project1_xv6_custom_sys_calls/xv6-riscv/kernel/fs.c:455-460 | the same for freeing a direct block, which was marked used |
| Inodes.FreeEntryOwned | Project1_xv6_custom_sys_calls/xv6-riscv/kernel/fs.c:465-468 | the same for freeing an entry of the indirect block |
| Inodes.FreeIndirectOwned | Project1_xv6_custom_sys_calls/xv6-riscv/kernel/fs.c:470-471 | the same for freeing the indirect block itself |
| Inodes.TruncFrees | Project1_xv6_custom_sys_calls/xv6-riscv/kernel/fs.c:449-476 | a block is free after truncation exactly if it was free or belonged to the inode |
| Inodes.EmptyOwnsNone | Project1_xv6_custom_sys_calls/xv6-riscv/kernel/fs.c:449-476 | an inode without addresses owns no block |
| Inodes.SetAddrByte | Project1_xv6_custom_sys_calls/xv6-riscv/kernel/fs.c:411-429 | a block that is added is zero, so no byte of any file changes |
| Inodes.SetEntryByte | Project1_xv6_custom_sys_calls/xv6-riscv/kernel/fs.c:430-438 | the same for an entry of the indirect block |
| Inodes.PutDataByte | Project1_xv6_custom_sys_calls/xv6-riscv/kernel/fs.c:539-551 | writing a data block changes the bytes of one block of one file |
| Files.PatchWritten | Project1_xv6_custom_sys_calls/xv6-riscv/kernel/fs.c:539-551 | copying into one block extends the written stretch and leaves all other bytes of all files |
| Files.GotMore | Project1_xv6_custom_sys_calls/xv6-riscv/kernel/fs.c:505-517 | copying from one block extends the slice that was read |
| Files.StoredSplice | Project1_xv6_custom_sys_calls/xv6-riscv/kernel/fs.c:528-562 | a write is the splice of its bytes into the file at its offset |
| Files.StoredIs | Project1_xv6_custom_sys_calls/xv6-riscv/kernel/fs.c:553-559 | what the loop wrote, with the new size, is a stored write |
| Files.WroteMore | Project1_xv6_custom_sys_calls/xv6-riscv/kernel/fs.c:528-562 | consecutive writes compose to one write of the joined bytes |
| Files.KeptTwice | Project1_xv6_custom_sys_calls/xv6-riscv/kernel/fs.c:405-444 | over consecutive writes a file keeps the blocks it has |
| Files.WroteSize | Project1_xv6_custom_sys_calls/xv6-riscv/kernel/fs.c:553-559 | after a write that counts n bytes the file reaches to the offset plus n |
| Files.MapSolid | Project1_xv6_custom_sys_calls/xv6-riscv/kernel/fs.c:405-444 | adding the next block leaves no gap in the blocks of any file |
| Files.StoredLess | Project1_xv6_custom_sys_calls/xv6-riscv/kernel/fs.c:539-559 | bytes copied beyond the old end of the file by a failing copy are no part of it |
| Files.TruncFull | Project1_xv6_custom_sys_calls/xv6-riscv/kernel/fs.c:446-476 | emptying a file leaves no holes in any |
| Files.SetSizeFull | Project1_xv6_custom_sys_calls/xv6-riscv/kernel/fs.c:553-554 | growing the size over filled blocks leaves no hole |
| FileSystem.FileSystem.constructor | Project1_xv6_custom_sys_calls/xv6-riscv/kernel/fs.c:40-48 | a disk image whose blocks are used and referenced exactly once |
| FileSystem.FileSystem.FindFree | Project1_xv6_custom_sys_calls/xv6-riscv/kernel/fs.c:73-84 | the first free block, or none |
| FileSystem.FileSystem.Balloc | Project1_xv6_custom_sys_calls/xv6-riscv/kernel/fs.c:64-89 | marks and zeroes the lowest free block, logging its bitmap block and itself; returns 0 exactly when the disk is full |
| FileSystem.FileSystem.Bfree | Project1_xv6_custom_sys_calls/xv6-riscv/kernel/fs.c:91-106 | the block is free and only its bitmap block is logged |
| FileSystem.FileSystem.PutBits | Project1_xv6_custom_sys_calls/xv6-riscv/kernel/fs.c:76-79 | a bitmap block is changed and passed to log_write |
| FileSystem.FileSystem.PutBlock | Project1_xv6_custom_sys_calls/xv6-riscv/kernel/fs.c:55-59 | a data block is changed and passed to log_write |
| FileSystem.FileSystem.PutLoose | Project1_xv6_custom_sys_calls/xv6-riscv/kernel/fs.c:545-547 | a data block is changed without log_write: the log gets it only if it lists the block already |
| FileSystem.FileSystem.MapAddr | Project1_xv6_custom_sys_calls/xv6-riscv/kernel/fs.c:411-429 | returns the address in the inode, allocating if it is missing, without changing any file |
| FileSystem.FileSystem.PutAddr | Project1_xv6_custom_sys_calls/xv6-riscv/kernel/fs.c:411-429 | the new block is owned by that address and no other |
| FileSystem.FileSystem.MapEntry | Project1_xv6_custom_sys_calls/xv6-riscv/kernel/fs.c:430-441 | returns the entry of the indirect block, allocating if it is missing, without changing any file |
| FileSystem.FileSystem.MapIndirect | Project1_xv6_custom_sys_calls/xv6-riscv/kernel/fs.c:424-441 | the indirect block is allocated if missing, then its entry; no other block of the file moves |
| FileSystem.FileSystem.Bmap | Project1_xv6_custom_sys_calls/xv6-riscv/kernel/fs.c:405-444 | returns the block of the file, allocating if missing, keeps ownership and all contents, and logs a bounded number of blocks; 0 only if the disk is full |
| FileSystem.FileSystem.Iupdate | Project1_xv6_custom_sys_calls/xv6-riscv/kernel/fs.c:226-242 | the inode on disk is the one in memory |
| FileSystem.FileSystem.FreeDirect | Project1_xv6_custom_sys_calls/xv6-riscv/kernel/fs.c:455-460 | all direct blocks are freed, none of them twice |
| FileSystem.FileSystem.FreeIndirect | Project1_xv6_custom_sys_calls/xv6-riscv/kernel/fs.c:462-472 | the indirect block and its entries are freed, none of them twice |
| FileSystem.FileSystem.Itrunc | Project1_xv6_custom_sys_calls/xv6-riscv/kernel/fs.c:446-476 | frees exactly the blocks of the inode, empties it on disk and in memory, never frees a free block, leaves no holes, and logs no more than all bitmap blocks and the inode block; it stays within a transaction when the bitmap has fewer blocks than that |
| FileSystem.FileSystem.Readi | Project1_xv6_custom_sys_calls/xv6-riscv/kernel/fs.c:490-519 | returns the slice of the file clipped to its size, allocates nothing and changes nothing; -1 exactly when the destination cannot take it |
| FileSystem.FileSystem.ReadLoop | Project1_xv6_custom_sys_calls/xv6-riscv/kernel/fs.c:505-518 | the loop returns the bytes of the file across block edges and the direct/indirect boundary |
| FileSystem.FileSystem.CopyPart | Project1_xv6_custom_sys_calls/xv6-riscv/kernel/fs.c:544-547 | a copy that fails part way: its bytes are in the cached block, and the block is loose unless the transaction has it already |
| FileSystem.FileSystem.CopyAll | Project1_xv6_custom_sys_calls/xv6-riscv/kernel/fs.c:544-549 | a whole copy is in the file and in the log |
| FileSystem.FileSystem.Locate | Project1_xv6_custom_sys_calls/xv6-riscv/kernel/fs.c:540-542 | bmap within the loop: what was written stays, and no block of the file from here on was logged before |
| FileSystem.UntouchedMore | Project1_xv6_custom_sys_calls/xv6-riscv/kernel/fs.c:539-551 | blocks of the file behind the current one are not in the transaction |
| FileSystem.FileSystem.WriteBlock | Project1_xv6_custom_sys_calls/xv6-riscv/kernel/fs.c:539-551 | one turn writes one block of the file and logs a bounded number of blocks; it fails only if the source ends within its block, or the file has no block there and the disk is full; then at most that block is not logged |
| FileSystem.FileSystem.WriteTurn | Project1_xv6_custom_sys_calls/xv6-riscv/kernel/fs.c:539-551 | every turn stays within the budget of its transaction, and a turn that fails says why |
| FileSystem.FileSystem.WriteLoop | Project1_xv6_custom_sys_calls/xv6-riscv/kernel/fs.c:539-551 | the bytes up to the return value are written and logged and no byte outside the copied ones changes; stops short only where the source ends within the next block or a missing block meets a full disk; a chunk leaves room in the log for the inode |
| FileSystem.FileSystem.GrowSize | Project1_xv6_custom_sys_calls/xv6-riscv/kernel/fs.c:553-554 | the size covers what was written, and files keep no holes below their size |
| FileSystem.FileSystem.Writei | Project1_xv6_custom_sys_calls/xv6-riscv/kernel/fs.c:521-562 | a successful write is a splice of the returned count of bytes at its offset, in what the log has and in the cache; the count is fixed by the readable bytes, whole blocks of them, unless a missing block meets a full disk; a call that begins a transaction with nothing loose leaves a block loose only if the source ends within a block that the file has, then that block, and always then if the file has the blocks before it; -1 exactly for an offset past the end or past the largest file; a chunk of filewrite logs at most MAXOPBLOCKS blocks |
| FileSystem.TornIff | Project1_xv6_custom_sys_calls/xv6-riscv/kernel/fs.c:544-547 | for a file whose blocks have no gap, a call leaves a changed block out of the log if and only if, by the state before it, the source ends within a block that the file has; it is that block |
| FileSystem.InsideReaches | Project1_xv6_custom_sys_calls/xv6-riscv/kernel/fs.c:544-547 | for a write within the file that is exactly a source that ends neither at the first byte nor at a block edge |
| FileSystem.FileSystem.TornIs | Project1_xv6_custom_sys_calls/xv6-riscv/kernel/fs.c:539-551 | the same from where the loop stopped |
| FileSystem.FileSystem.CountIs | Project1_xv6_custom_sys_calls/xv6-riscv/kernel/fs.c:539-562 | the bytes counted are the whole blocks that can be read, or fewer because a block is missing and the disk is full |
| FileSystem.FileSystem.WriteBytes | Project1_xv6_custom_sys_calls/xv6-riscv/kernel/fs.c:539-561 | the loop, the size and the inode together |
| FileSystem.TornWrite | Project1_xv6_custom_sys_calls/xv6-riscv/kernel/fs.c:545-547 | one call of that kind: it returns 0, and the cached block has a byte that the log does not have |
| FileSystem.FileSystem.UpdateInode | Project1_xv6_custom_sys_calls/xv6-riscv/kernel/fs.c:556-559 | the inode goes to its block, the last one of the transaction |
| FileSystem.NextTurn | Project1_xv6_custom_sys_calls/xv6-riscv/kernel/file.c:148-173 | after the first, unaligned block every turn starts a new block, which bounds the blocks of a chunk |
| FileSystem.FileSystem.Transaction | Project1_xv6_custom_sys_calls/xv6-riscv/kernel/file.c:158-164 | a call of writei of its own transaction: what the log has then is exactly the splice of the returned count, and for a file without gaps everything is in the log again if and only if the call does not tear a block |
| FileSystem.FileSystem.WriteChunk | Project1_xv6_custom_sys_calls/xv6-riscv/kernel/file.c:158-164 | one transaction logs at most MAXOPBLOCKS distinct blocks at every offset and length; it is short only because the source ends, the offset is out of range, or the file has no block for the next byte and the disk is full |
| FileSystem.FileSystem.WriteChunks | Project1_xv6_custom_sys_calls/xv6-riscv/kernel/file.c:148-173 | the loop over the chunks: one transaction after the other, up to the first short one, which is short for a reason given by the files before the call |
| FileSystem.FileSystem.Filewrite | Project1_xv6_custom_sys_calls/xv6-riscv/kernel/file.c:132-179 | returns the count only if all bytes were readable, in range and written, and -1 only if the source ends early, the offset is out of range, or the file had no block for the next byte and the disk is full; moves the offset over what the log has, and no transaction outgrows its reservation; each of its transactions turns the blocks before it into those of files in which the first bytes are spliced, as far as it got, and nothing else |
| FileSystem.FileSystem.TxOk | Project1_xv6_custom_sys_calls/xv6-riscv/kernel/file.c:158-164 | the blocks given to log_write by a chunk are those of the new files |
| CrashSafety.CrashedWrite | Project1_xv6_custom_sys_calls/xv6-riscv/kernel/file.c:132-179 | filewrite runs among any other operations that leave its blocks alone and share commits with it; the power fails at any step of the log, with transactions open, committing or done, and recovery runs to its end, however often interrupted: of these blocks the disk holds those of files with exactly the bytes of the first k transactions spliced in, where k counts the ones that had ended when the header was last written |
| CrashSafety.CrashedFile | Project1_xv6_custom_sys_calls/xv6-riscv/kernel/file.c:132-179 | whoever reads the file from the recovered disk, however the words are taken for inodes and data, reads the old file with these bytes spliced in |
| CrashSafety.LogTakes | Project1_xv6_custom_sys_calls/xv6-riscv/kernel/file.c:148-173 | the log accepts every log_write of these transactions at every stage, without panic, whatever other operations do |
| CrashSafety.CarriesStands | Project1_xv6_custom_sys_calls/xv6-riscv/kernel/file.c:132-179 | at every stage what is durable are the blocks after the committed transactions, and what is pending those of the calls so far |
| CrashSafety.WordsApart | Project1_xv6_custom_sys_calls/xv6-riscv/kernel/fs.h:31-39 | different inodes, bitmap or data blocks of one kind are different words on disk |
| CrashSafety.FileRead | Project1_xv6_custom_sys_calls/xv6-riscv/kernel/fs.h:31-45 | files that one disk can be read as agree on the inode, the addresses and every byte of the file |
| CrashSafety.NodesApart | Project1_xv6_custom_sys_calls/xv6-riscv/kernel/fs.h:31-42 | the inodes of a block can be read back from its words |
| Image.SyncNodes | Project1_xv6_custom_sys_calls/xv6-riscv/kernel/fs.h:41-45 | an inode that is written and logged changes its inode block only, and the log has the blocks of the file system |
| Image.SyncBits | Project1_xv6_custom_sys_calls/xv6-riscv/kernel/fs.h:47-51 | the same for a bitmap block |
| CrashSafety.StepStands | Project1_xv6_custom_sys_calls/xv6-riscv/kernel/log.c:126-204 | each step of the log, by filewrite, by another operation or by commit, moves what is durable only at the commit point, to all transactions that have ended |
| CrashSafety.ForeignStands | Project1_xv6_custom_sys_calls/xv6-riscv/kernel/log.c:126-176 | a step of another operation changes neither the blocks of filewrite nor the charge of its operation |
| CrashSafety.RecoversDurable | Project1_xv6_custom_sys_calls/xv6-riscv/kernel/log.c:117-124 | a recovery that has ended leaves what was durable before the failure |
| Image.NoteIs | Project1_xv6_custom_sys_calls/xv6-riscv/kernel/log.c:215-236 | a call adds the block to the transaction once and makes its contents those that the log has |
| Image.SyncLoose | Project1_xv6_custom_sys_calls/xv6-riscv/kernel/log.c:215-236 | a block that changes without a call leaves the log with its old contents |
| PageTables.PlaceChild | Project1_xv6_custom_sys_calls/xv6-riscv/kernel/vm.c:97-115 | the three 9-bit indices lead from the root to the one table of a page |
| PageTables.WalkDown | Project1_xv6_custom_sys_calls/xv6-riscv/kernel/vm.c:97-115 | a valid inner entry leads to the child table, and an invalid one means there is none |
| PageTables.AddTableInv | Project1_xv6_custom_sys_calls/xv6-riscv/kernel/vm.c:108-111 | a new table changes no translation |
| PageTables.SetLeafIs | Project1_xv6_custom_sys_calls/xv6-riscv/kernel/vm.c:146-174 | writing one leaf entry changes the translation of one page of one address space |
| PageTables.SetLeafInv | Project1_xv6_custom_sys_calls/xv6-riscv/kernel/vm.c:146-212 | mapping and unmapping keep every page in exactly one use |
| PageTables.ShrinksOne | Project1_xv6_custom_sys_calls/xv6-riscv/kernel/vm.c:192-212 | unmapping a page takes its translation away and returns its page |
| PageTables.FreeThenClear | Project1_xv6_custom_sys_calls/xv6-riscv/kernel/vm.c:206-210 | freeing the page before its entry is cleared comes to the same as after |
| PageTables.GrowFails | Project1_xv6_custom_sys_calls/xv6-riscv/kernel/vm.c:215-240 | growing and shrinking again leaves all memory and translations as they were |
| PageTables.SpentMore | Project1_xv6_custom_sys_calls/xv6-riscv/kernel/vm.c:97-115 | what two operations take from the free list adds up, tables that both need being counted once |
| PageTables.SpentIs | Project1_xv6_custom_sys_calls/xv6-riscv/kernel/vm.c:97-115 | an operation that took its tables and pages had enough of them |
| PageTables.SpentOut | Project1_xv6_custom_sys_calls/xv6-riscv/kernel/vm.c:97-115 | when a later part finds too few pages, there were too few for the whole at the beginning |
| PageTables.CopyRunsOut | Project1_xv6_custom_sys_calls/xv6-riscv/kernel/vm.c:305-323 | a copy that stops for lack of memory lacked it from the beginning |
| PageTables.CopySpends | Project1_xv6_custom_sys_calls/xv6-riscv/kernel/vm.c:305-317 | a copy takes one page for each page of the parent and each missing table once |
| PageTables.ShortNext | Project1_xv6_custom_sys_calls/xv6-riscv/kernel/vm.c:226-238 | growth that stops for lack of memory lacked it from the beginning |
| PageTables.UnlinkInv | Project1_xv6_custom_sys_calls/xv6-riscv/kernel/vm.c:262-278 | clearing the entry of a freed table restores the invariant |
| PageTables.DropInv | Project1_xv6_custom_sys_calls/xv6-riscv/kernel/vm.c:262-278 | an empty table may be taken out of its tree |
| PageTables.UnderOne | Project1_xv6_custom_sys_calls/xv6-riscv/kernel/vm.c:262-278 | every table below a table is below exactly one of its entries |
| PageTables.LeafEntry | Project1_xv6_custom_sys_calls/xv6-riscv/kernel/vm.c:262-278 | without leaves every valid entry is an inner one, so the panic of freewalk is not reached |
| PageTables.DissolvedIs | Project1_xv6_custom_sys_calls/xv6-riscv/kernel/vm.c:280-288 | unmapping all memory and sweeping the tables frees exactly the pages of the address space |
| Vm.PagesIs | Project1_xv6_custom_sys_calls/xv6-riscv/kernel/vm.c:215-258 | rounding up gives the least number of pages that hold the bytes |
| Vm.Memory.Walk | Project1_xv6_custom_sys_calls/xv6-riscv/kernel/vm.c:86-115 | finds the leaf entry of the address in the tree; with alloc it takes exactly the pages for the missing tables of the path and fails exactly when there are not enough; without alloc fails exactly if there is no table and changes nothing; no translation changes |
| Vm.Memory.Descend | Project1_xv6_custom_sys_calls/xv6-riscv/kernel/vm.c:97-112 | one level down: the child table, a new one if it is missing and may be made, or none exactly when there is none or memory is out |
| Vm.Memory.NewTable | Project1_xv6_custom_sys_calls/xv6-riscv/kernel/vm.c:108-111 | a new table is added, or memory is out; nothing else changes |
| Vm.Memory.MapPage | Project1_xv6_custom_sys_calls/xv6-riscv/kernel/vm.c:163-167 | one page gets its entry and no other page of any address space changes; panics exactly if it is mapped; fails only when there are too few pages for the tables of its path, and takes exactly those |
| Vm.Memory.Mappages | Project1_xv6_custom_sys_calls/xv6-riscv/kernel/vm.c:140-174 | the range is mapped page by page to consecutive physical pages with the permissions; it panics exactly for an unaligned or empty range and at the first page that is mapped already or beyond MAXVA; -1 exactly when free memory before the call is too little for the tables up to the page at which it stops; the pages before that stay mapped |
| Vm.Memory.MapFrom | Project1_xv6_custom_sys_calls/xv6-riscv/kernel/vm.c:160-173 | the loop maps page after page up to the first that is refused, the first without memory for its table, or the last |
| Vm.Memory.Uvmcreate | Project1_xv6_custom_sys_calls/xv6-riscv/kernel/vm.c:176-187 | a new empty address space, or memory is out |
| Vm.Memory.UnmapPage | Project1_xv6_custom_sys_calls/xv6-riscv/kernel/vm.c:202-210 | one page is freed on demand and then loses its entry; every page is in exactly one use again |
| Vm.Memory.Uvmunmap | Project1_xv6_custom_sys_calls/xv6-riscv/kernel/vm.c:189-212 | exactly the pages of the range lose their translation, and their memory becomes free on demand |
| Vm.Memory.UnmapFrom | Project1_xv6_custom_sys_calls/xv6-riscv/kernel/vm.c:201-211 | the loop unmaps page after page |
| Vm.Memory.NewPage | Project1_xv6_custom_sys_calls/xv6-riscv/kernel/vm.c:227-237 | a page from the free list with given contents is mapped, or everything taken goes back; fails only when the free list is shorter than the missing tables and the page, and takes exactly those |
| Vm.Memory.Uvmalloc | Project1_xv6_custom_sys_calls/xv6-riscv/kernel/vm.c:214-240 | returns the new size exactly if the free pages before the call suffice for the new pages and the tables they need; then these are zero, the process's own and have the permissions; otherwise 0, and every page of memory it took is returned |
| Vm.Memory.Uvmdealloc | Project1_xv6_custom_sys_calls/xv6-riscv/kernel/vm.c:242-258 | frees exactly the pages between the two sizes |
| Vm.Memory.Freewalk | Project1_xv6_custom_sys_calls/xv6-riscv/kernel/vm.c:260-278 | frees exactly the table and all tables below it |
| Vm.Memory.FreeChild | Project1_xv6_custom_sys_calls/xv6-riscv/kernel/vm.c:268-272 | a subtree is freed and its entry cleared |
| Vm.Memory.Uvmfree | Project1_xv6_custom_sys_calls/xv6-riscv/kernel/vm.c:280-288 | exactly the tables and the memory of the address space become free; others are untouched |
| Vm.Memory.Uvmcopy | Project1_xv6_custom_sys_calls/xv6-riscv/kernel/vm.c:290-324 | fails exactly if the free pages before the call are fewer than the pages the parent has and the tables the child lacks for them; on success the child has equal contents and flags on pages of its own, the parent is untouched; a failure returns every page of memory it took |
| Vm.Memory.CopyPage | Project1_xv6_custom_sys_calls/xv6-riscv/kernel/vm.c:305-317 | one page is copied to a fresh page, or skipped if the parent has none; fails only when memory is too little for the copy up to it |
| Vm.Memory.CopyTurn | Project1_xv6_custom_sys_calls/xv6-riscv/kernel/vm.c:305-317 | the copy takes exactly one page and the missing tables of its path, and fails only if there are not so many |
| Vm.Memory.AllocNext | Project1_xv6_custom_sys_calls/xv6-riscv/kernel/vm.c:226-238 | growing by one page takes one page and the missing tables of its path; it fails only if memory before the growth is too little up to it |
| Vm.Memory.GiveUp | Project1_xv6_custom_sys_calls/xv6-riscv/kernel/vm.c:228-236 | the failure exits of growing free what was added |
| PageTables.EntryIs | Project1_xv6_custom_sys_calls/xv6-riscv/kernel/riscv.h:364-369 | address and flags come back from an entry as they went in |
| PageTables.PX | Project1_xv6_custom_sys_calls/xv6-riscv/kernel/riscv.h:371-374 | an index is below 512 |
| PageTables.TakeInv | Project1_xv6_custom_sys_calls/xv6-riscv/kernel/kalloc.c:65-82 | taking the first free page keeps every page in exactly one use and every translation |
| PageTables.GiveInv | Project1_xv6_custom_sys_calls/xv6-riscv/kernel/kalloc.c:42-63 | returning a page keeps every page in exactly one use and every translation |
| Vm.Memory.constructor | Project1_xv6_custom_sys_calls/xv6-riscv/kernel/kalloc.c:26-31 | memory of which no page is on the list yet |
| Vm.Memory.Freerange | Project1_xv6_custom_sys_calls/xv6-riscv/kernel/kalloc.c:33-40 | every whole page of the range goes to the list |
| Vm.Memory.Kalloc | Project1_xv6_custom_sys_calls/xv6-riscv/kernel/kalloc.c:65-82 | takes the first page of the list, 0 exactly when it is empty |
| Vm.Memory.Kfree | Project1_xv6_custom_sys_calls/xv6-riscv/kernel/kalloc.c:42-63 | puts the page at the front of the list, which runs through the pages themselves |
| Virtio.AddChain | Project1_xv6_custom_sys_calls/xv6-riscv/kernel/virtio_disk.c:235-265 | three free descriptors linked to a chain keep free descriptors and chains a partition of the table |
| Virtio.RemoveChain | Project1_xv6_custom_sys_calls/xv6-riscv/kernel/virtio_disk.c:184-197 | freeing a chain frees its three descriptors and keeps the partition |
| Virtio.RingPut | Project1_xv6_custom_sys_calls/xv6-riscv/kernel/virtio_disk.c:271-277 | a ring holds the posted heads in order across the 16-bit wrap of its index |
| Virtio.RingGet | Project1_xv6_custom_sys_calls/xv6-riscv/kernel/virtio_disk.c:312-323 | the entry at the index is the oldest head and is consumed once |
| Virtio.RingEmpty | Project1_xv6_custom_sys_calls/xv6-riscv/kernel/virtio_disk.c:312-312 | the two 16-bit indices are equal exactly when nothing is in the ring |
| Collections.Pigeons | Project1_xv6_custom_sys_calls/xv6-riscv/kernel/virtio_disk.c:155-166 | no more heads than descriptors can be in a ring |
| Virtio.FirstPosted | Project1_xv6_custom_sys_calls/xv6-riscv/kernel/virtio_disk.c:271-277 | the avail ring is empty exactly when its indices agree, and its next head is a posted request |
| Virtio.FirstDone | Project1_xv6_custom_sys_calls/xv6-riscv/kernel/virtio_disk.c:312-312 | the used ring is empty exactly when its indices agree, and its next head is a completed request |
| Virtio.PostInv | Project1_xv6_custom_sys_calls/xv6-riscv/kernel/virtio_disk.c:235-277 | posting a request keeps the invariant of table, rings and waiting buffers |
| Virtio.FetchInv | Project1_xv6_custom_sys_calls/xv6-riscv/kernel/virtio_disk.c:271-281 | the device takes the oldest posted head |
| Virtio.CompleteInv | Project1_xv6_custom_sys_calls/xv6-riscv/kernel/virtio_disk.c:309-316 | a completion of the device keeps the invariant |
| Virtio.AckInv | Project1_xv6_custom_sys_calls/xv6-riscv/kernel/virtio_disk.c:312-323 | the next used entry names a request that is done, so the status panic is not reached |
| Virtio.FinishInv | Project1_xv6_custom_sys_calls/xv6-riscv/kernel/virtio_disk.c:283-289 | taking a chain down keeps the invariant |
| Virtio.AllAcked | Project1_xv6_custom_sys_calls/xv6-riscv/kernel/virtio_disk.c:312-324 | after the loop exactly the completed requests are acknowledged |
| Virtio.Disk.constructor | Project1_xv6_custom_sys_calls/xv6-riscv/kernel/virtio_disk.c:144-146 | all descriptors are free and both rings empty |
| Virtio.Disk.AllocDesc | Project1_xv6_custom_sys_calls/xv6-riscv/kernel/virtio_disk.c:155-166 | the lowest free descriptor, or none if all are in use |
| Virtio.Disk.FreeDesc | Project1_xv6_custom_sys_calls/xv6-riscv/kernel/virtio_disk.c:168-182 | that descriptor is free and blank, no other changes |
| Virtio.Disk.FreeChain | Project1_xv6_custom_sys_calls/xv6-riscv/kernel/virtio_disk.c:184-197 | frees exactly the three descriptors of the chain |
| Virtio.Disk.Alloc3 | Project1_xv6_custom_sys_calls/xv6-riscv/kernel/virtio_disk.c:199-213 | three distinct free descriptors exactly when three are free; otherwise the free set is restored |
| Virtio.Disk.FreeAll | Project1_xv6_custom_sys_calls/xv6-riscv/kernel/virtio_disk.c:205-209 | the failure exit gives back what was taken |
| Virtio.Disk.Format | Project1_xv6_custom_sys_calls/xv6-riscv/kernel/virtio_disk.c:235-265 | the header has the request type of the direction and the sector; the three descriptors form a chain of header, data and status, with the buffer, the lengths 16, 1024 and 1, and the device writing to the data exactly for a read, and to the status |
| Virtio.Disk.Start | Project1_xv6_custom_sys_calls/xv6-riscv/kernel/virtio_disk.c:215-281 | posts the request exactly when three descriptors are free, else changes nothing; the request then on record is for this buffer, in this direction, at the first sector of the block |
| Virtio.Disk.Send | Project1_xv6_custom_sys_calls/xv6-riscv/kernel/virtio_disk.c:235-281 | header, descriptors and avail entry are written for the three descriptors, and the invariant holds with the new request |
| Virtio.OrderOf | Project1_xv6_custom_sys_calls/xv6-riscv/kernel/virtio_disk.c:235-265 | in every valid state the device that follows the chain of a request reads what its caller asked for |
| Virtio.HeadedSet | Project1_xv6_custom_sys_calls/xv6-riscv/kernel/virtio_disk.c:240-245 | writing one header leaves the headers of all other requests alone |
| Virtio.SectorIs | Project1_xv6_custom_sys_calls/xv6-riscv/kernel/virtio_disk.c:218-218 | the sector, computed in 32 bits, is twice the block number exactly for block numbers below 2 to the 31; above that another block's sector comes out |
| Virtio.Disk.Finish | Project1_xv6_custom_sys_calls/xv6-riscv/kernel/virtio_disk.c:283-292 | a waiter goes on only after its own completion was acknowledged, and frees exactly its chain |
| Virtio.Disk.Ack | Project1_xv6_custom_sys_calls/xv6-riscv/kernel/virtio_disk.c:312-323 | one used entry is consumed, for the oldest completion |
| Virtio.Disk.Intr | Project1_xv6_custom_sys_calls/xv6-riscv/kernel/virtio_disk.c:294-327 | while the device goes on taking and finishing requests between any two turns, the loop ends and acknowledges exactly the requests completed by then, each once and in order of completion |
| Virtio.Disk.Turn | Project1_xv6_custom_sys_calls/xv6-riscv/kernel/virtio_disk.c:312-324 | one turn acknowledges the oldest completion, whatever the device has done meanwhile |
| Virtio.Disk.Meanwhile | Project1_xv6_custom_sys_calls/xv6-riscv/kernel/virtio_disk.c:309-316 | the steps of the device between two turns are those that it would do before the handler |
| Virtio.ActedAcked | Project1_xv6_custom_sys_calls/xv6-riscv/kernel/virtio_disk.c:309-316 | a step of the device is the same whether earlier completions are acknowledged or not |
| Virtio.Disk.Device | Project1_xv6_custom_sys_calls/xv6-riscv/kernel/virtio_disk.c:309-316 | the device takes the next head, or finishes one of those it has taken |
| Virtio.Disk.Fetch | Project1_xv6_custom_sys_calls/xv6-riscv/kernel/virtio_disk.c:271-281 | the device step: the oldest posted head is taken once, and following its chain through the descriptors and the header gives the direction, sector and buffer of the request and the place of its status |
| Virtio.Disk.Complete | Project1_xv6_custom_sys_calls/xv6-riscv/kernel/virtio_disk.c:309-316 | the device step: a taken head is returned once |
| SharedMemory.CreateInv | Project1_xv6_custom_sys_calls/xv6-riscv/kernel/shm.c:53-77 | a new region with fresh pages keeps all regions disjoint |
| SharedMemory.AttachInv | Project1_xv6_custom_sys_calls/xv6-riscv/kernel/shm.c:102-126 | attaching keeps counts, mappings and disjointness |
| SharedMemory.DetachInv | Project1_xv6_custom_sys_calls/xv6-riscv/kernel/shm.c:167-175 | detaching keeps counts, mappings and disjointness |
| SharedMemory.DestroyInv | Project1_xv6_custom_sys_calls/xv6-riscv/kernel/shm.c:176-183 | freeing a region without attachments keeps all others |
| SharedMemory.RefcountIs | Project1_xv6_custom_sys_calls/xv6-riscv/kernel/shm.c:122-183 | the reference count equals the number of processes with an attachment record for the key |
| SharedMemory.SamePages | Project1_xv6_custom_sys_calls/xv6-riscv/kernel/shm.c:112-120 | every attached process maps the same physical pages in the same order |
| SharedMemory.MappedIsShared | Project1_xv6_custom_sys_calls/xv6-riscv/kernel/shm.c:112-175 | in every valid state each page that a process maps is a page of a region that it is attached to, at its place there; so no free page is mapped |
| SharedMemory.JoinedGains | Project1_xv6_custom_sys_calls/xv6-riscv/kernel/shm.c:112-126 | attaching maps the pages of the region in order behind the old size and keeps all other mappings |
| SharedMemory.LeftLoses | Project1_xv6_custom_sys_calls/xv6-riscv/kernel/shm.c:167-175 | detaching takes away exactly the mappings of the region and its record |
| SharedMemory.PagesApart | Project1_xv6_custom_sys_calls/xv6-riscv/kernel/shm.c:61-74 | no page is in two regions or twice in one |
| SharedMemory.MapAll | Project1_xv6_custom_sys_calls/xv6-riscv/kernel/shm.c:112-120 | the pages of the region are mapped in order and nothing else changes |
| Shm.Shm.constructor | Project1_xv6_custom_sys_calls/xv6-riscv/kernel/shm.c:14-20 | an empty region table |
| Shm.Shm.AllocPages | Project1_xv6_custom_sys_calls/xv6-riscv/kernel/shm.c:61-74 | distinct pages that were free, exactly when there are enough; a failure gives back what was taken |
| Shm.Shm.FreePages | Project1_xv6_custom_sys_calls/xv6-riscv/kernel/shm.c:65-67 | the roll back restores the free pages |
| Shm.Shm.FindRegion | Project1_xv6_custom_sys_calls/xv6-riscv/kernel/shm.c:45-51 | the first slot with the key, or none |
| Shm.Shm.FindRecord | Project1_xv6_custom_sys_calls/xv6-riscv/kernel/shm.c:84-100 | the first record with the key, or none |
| Shm.Shm.FindOrCreate | Project1_xv6_custom_sys_calls/xv6-riscv/kernel/shm.c:45-82 | the region of the key, created with fresh pages if there is none; fails exactly when there is no slot or too few pages, and then changes nothing |
| Shm.Shm.MapRegion | Project1_xv6_custom_sys_calls/xv6-riscv/kernel/shm.c:112-120 | all pages or none are mapped |
| Shm.Shm.AttachProc | Project1_xv6_custom_sys_calls/xv6-riscv/kernel/shm.c:84-129 | returns the address at which the region is mapped; fails exactly when record slots, address space or page tables run out; a second attach and a failure change nothing |
| Shm.Shm.Open | Project1_xv6_custom_sys_calls/xv6-riscv/kernel/shm.c:27-130 | fails exactly when, by the state before the call, the key or size is not positive, no region can be had, or the process lacks a record, address space or page tables; a failure changes nothing, except that exactly when it had to make the region first, the region stays in its slot with all its pages and no attachment; on success the region's pages, in order, are mapped at the address returned, for a new region as many as the size needs, other mappings and processes are untouched |
| Shm.StrayCall | Project1_xv6_custom_sys_calls/xv6-riscv/kernel/shm.c:27-130 | a process that has grown up to the trapframe opens its first region: the call fails, and the last free page is in a region without attachments |
| Shm.StrayReason | Project1_xv6_custom_sys_calls/xv6-riscv/kernel/shm.c:107-121 | in every state that can come about, that happens only for lack of address space or page tables |
| Shm.PagesSuffice | Project1_xv6_custom_sys_calls/xv6-riscv/kernel/shm.c:39-41 | the pages for a size hold it exactly if a region can be that large, and none is in excess |
| SharedMemory.RecordsSuffice | Project1_xv6_custom_sys_calls/xv6-riscv/kernel/shm.c:93-101 | a process runs out of records only if it is attached to every region there can be |
| Shm.Shm.Enter | Project1_xv6_custom_sys_calls/xv6-riscv/kernel/shm.c:123-130 | the record, the mapping and the reference count are entered together |
| Shm.Shm.Close | Project1_xv6_custom_sys_calls/xv6-riscv/kernel/shm.c:136-187 | succeeds exactly if attached; the record goes, no page of the region is mapped afterwards and all other mappings and records stay; the pages are freed exactly at the last close |
| Shm.Shm.Detach | Project1_xv6_custom_sys_calls/xv6-riscv/kernel/shm.c:167-175 | one record with all its mappings and one reference go (SharedMemory.LeftLoses says which mappings) |
| Shm.Shm.FreeRegion | Project1_xv6_custom_sys_calls/xv6-riscv/kernel/shm.c:176-183 | exactly the pages of the region become free |
| ShellTokens.SpellsTokens | Project1_xv6_custom_sys_calls/xv6-riscv/user/sh.c:271-314 | any legal spacing of a token list scans back to that list |
| ShellTokens.TokensSpell | Project1_xv6_custom_sys_calls/xv6-riscv/user/sh.c:271-314 | every text is a spelling of the tokens scanned from it |
| ShellTokens.Skip | Project1_xv6_custom_sys_calls/xv6-riscv/user/sh.c:278-279 | skips exactly the whitespace |
| ShellTokens.WordEnd | Project1_xv6_custom_sys_calls/xv6-riscv/user/sh.c:303-304 | a word ends at the first whitespace or symbol |
| ShellGrammar.LineComplete | Project1_xv6_custom_sys_calls/xv6-riscv/user/sh.c:350-365 | the parser returns the tree of every line of the grammar |
| ShellGrammar.LineSound | Project1_xv6_custom_sys_calls/xv6-riscv/user/sh.c:350-365 | what the parser accepts is the token list of a line of the grammar |
| ShellGrammar.PipeComplete | Project1_xv6_custom_sys_calls/xv6-riscv/user/sh.c:367-378 | the same for pipelines |
| ShellGrammar.PipeSound | Project1_xv6_custom_sys_calls/xv6-riscv/user/sh.c:367-378 | the same for pipelines, the other way |
| ShellGrammar.ExecComplete | Project1_xv6_custom_sys_calls/xv6-riscv/user/sh.c:421-452 | the same for simple commands and blocks |
| ShellGrammar.ExecSound | Project1_xv6_custom_sys_calls/xv6-riscv/user/sh.c:421-452 | the same for simple commands and blocks, the other way |
| ShellGrammar.ArgsComplete | Project1_xv6_custom_sys_calls/xv6-riscv/user/sh.c:435-448 | the same for words with redirections, fewer than MAXARGS of them |
| ShellGrammar.ArgsSound | Project1_xv6_custom_sys_calls/xv6-riscv/user/sh.c:435-448 | the same for words with redirections, the other way |
| ShellGrammar.RedirsComplete | Project1_xv6_custom_sys_calls/xv6-riscv/user/sh.c:380-403 | the same for redirections |
| ShellGrammar.RedirsSound | Project1_xv6_custom_sys_calls/xv6-riscv/user/sh.c:380-403 | the same for redirections, the other way |
| Shell.Gettoken | Project1_xv6_custom_sys_calls/xv6-riscv/user/sh.c:271-314 | returns the code and span of the next token and leaves the cursor before the rest |
| Shell.Peek | Project1_xv6_custom_sys_calls/xv6-riscv/user/sh.c:316-326 | skips whitespace and says whether the next token is one of the symbols |
| Shell.ParseRedirs | Project1_xv6_custom_sys_calls/xv6-riscv/user/sh.c:380-403 | wraps the command in the redirections of the grammar, innermost first, or panics where there is no file name |
| Shell.ParseArgs | Project1_xv6_custom_sys_calls/xv6-riscv/user/sh.c:435-451 | collects the words and redirections of a command, or panics |
| Shell.SimpleIs | Project1_xv6_custom_sys_calls/xv6-riscv/user/sh.c:421-452 | the tree built word by word is the one of the grammar: all words in one command inside all redirections |
| Shell.ParseBlock | Project1_xv6_custom_sys_calls/xv6-riscv/user/sh.c:405-419 | parses a parenthesised line with its redirections, or panics |
| Shell.ParseExecAt | Project1_xv6_custom_sys_calls/xv6-riscv/user/sh.c:421-452 | returns the tree of the simple command or block at the cursor, or panics exactly if there is none |
| Shell.ParsePipeAt | Project1_xv6_custom_sys_calls/xv6-riscv/user/sh.c:367-378 | returns the tree of the pipeline at the cursor, or panics exactly if there is none |
| Shell.ParseAmps | Project1_xv6_custom_sys_calls/xv6-riscv/user/sh.c:356-359 | one background node for each ampersand |
| Shell.ParseLineAt | Project1_xv6_custom_sys_calls/xv6-riscv/user/sh.c:350-365 | returns the tree of the line at the cursor, or panics exactly if there is none |
| Shell.LineIff | Project1_xv6_custom_sys_calls/xv6-riscv/user/sh.c:333-348 | the whole text parses exactly if it is a spelling of some line, and then to the tree of that line |
| Shell.LineGood | Project1_xv6_custom_sys_calls/xv6-riscv/user/sh.c:350-365 | every word span of the tree is a word of the text |
| Shell.Nulterminate | Project1_xv6_custom_sys_calls/xv6-riscv/user/sh.c:454-499 | writes a NUL at the end of every word and file name of the tree and nowhere else |
| Shell.CutReads | Project1_xv6_custom_sys_calls/xv6-riscv/user/sh.c:454-499 | after that every word and file pointer reads as exactly its scanned word |
| Shell.EndsGood | Project1_xv6_custom_sys_calls/xv6-riscv/user/sh.c:454-499 | no NUL falls inside a word |
| Shell.CStringIs | Project1_xv6_custom_sys_calls/xv6-riscv/user/sh.c:454-499 | a C string read up to its first NUL |
| Shell.Strlen | Project1_xv6_custom_sys_calls/xv6-riscv/user/sh.c:339-339 | the first NUL of the buffer |
| Shell.ParseCmd | Project1_xv6_custom_sys_calls/xv6-riscv/user/sh.c:333-348 | terminates on every line; returns the tree of the line for every spelling of it and panics on all other texts; afterwards every pointer reads as its word |
| Pipe.HoldsPut | Project1_xv6_custom_sys_calls/xv6-riscv/kernel/pipe.c:95-96 | storing a byte at the write index appends it to the ring and overwrites none that is unread |
| Pipe.HoldsGet | Project1_xv6_custom_sys_calls/xv6-riscv/kernel/pipe.c:121-129 | the byte at the read index is the oldest |
| Pipe.Wraps | Project1_xv6_custom_sys_calls/xv6-riscv/kernel/pipe.c:88-95 | the ring index is unaffected by the wrap of a 32-bit counter |
| Pipe.Pipe.constructor | Project1_xv6_custom_sys_calls/xv6-riscv/kernel/pipe.c:22-56 | an empty pipe with both ends open |
| Pipe.Pipe.FullEmpty | Project1_xv6_custom_sys_calls/xv6-riscv/kernel/pipe.c:88-113 | the two counter tests say full and empty even after the counters wrap |
| Pipe.Pipe.Fifo | Project1_xv6_custom_sys_calls/xv6-riscv/kernel/pipe.c:76-134 | bytes delivered are a prefix of bytes accepted, the ring holds the rest, and the counters differ by its length modulo 2 to the 32, at most PIPESIZE |
| Pipe.Pipe.Write | Project1_xv6_custom_sys_calls/xv6-riscv/kernel/pipe.c:76-103 | exactly the bytes up to the return or sleep point are accepted, in order; -1 exactly if bytes are left and the reader is gone or the process seen killed; sleeps exactly if bytes are left, neither is so, and the pipe is full; returns the count only when all are written or the source cannot be read |
| Pipe.Pipe.Read | Project1_xv6_custom_sys_calls/xv6-riscv/kernel/pipe.c:105-134 | delivers the oldest bytes in order, all that are asked for, there and can be copied out; sleeps exactly when empty with a writer and not killed; -1 exactly when killed while it would sleep, or when no byte can be copied out; 0 for an empty pipe only at end of file |
| Pipe.Pipe.Put | Project1_xv6_custom_sys_calls/xv6-riscv/kernel/pipe.c:95-96 | one byte is accepted |
| Pipe.Pipe.Get | Project1_xv6_custom_sys_calls/xv6-riscv/kernel/pipe.c:121-129 | the oldest byte is delivered |
| Pipe.Pipe.Close | Project1_xv6_custom_sys_calls/xv6-riscv/kernel/pipe.c:58-74 | the pipe is freed exactly when both ends are closed |
| Grep.Match | Project1_xv6_custom_sys_calls/xv6-riscv/user/grep.c:72-82 | true exactly when the pattern, read as a regular expression with an optional leading anchor, accepts at some position; terminates |
| Grep.MatchHere | Project1_xv6_custom_sys_calls/xv6-riscv/user/grep.c:84-96 | true exactly when the expression accepts a prefix of the text; terminates |
| Grep.MatchStar | Project1_xv6_custom_sys_calls/xv6-riscv/user/grep.c:98-106 | true exactly when some number of repetitions followed by the rest accepts; terminates |
| Grep.StarAccepts | Project1_xv6_custom_sys_calls/xv6-riscv/user/grep.c:98-106 | the reference semantics of a repetition |
| Grep.OneAccepts | Project1_xv6_custom_sys_calls/xv6-riscv/user/grep.c:84-96 | the reference semantics of a literal and of the dot |
| Grep.EmptyAccepts | Project1_xv6_custom_sys_calls/xv6-riscv/user/grep.c:84-96 | the reference semantics of the empty pattern and of the trailing anchor |

## Left out

- Liveness and fairness: no claim that a sleeping process or a waiting operation ever goes on, beyond Progress.NoDeadlock.
- Weak memory ordering, interrupts and spinlock internals: a critical section under one lock is one step, nested or handed-over locks are explicit.
- `bget: no buffers`: can be reached, as NBUF equals LOGBLOCKS; the cache model has it as an outcome.
- CrashSafety.CrashedWrite: speaks of blocks that other operations leave alone, so for a file whose inode block another operation writes too it says nothing about that block; filewrite starts with no block changed outside the log; the machine of BufferCache between cached and disk blocks is not composed in the same lemma. Names, links and file types are not in the inodes of the model.
- The disk image of mkfs: the constructors require the superblock layout, used metadata blocks and single ownership.
- Inode table, directories and path names (iget, iput, ireclaim, dirlookup, dirlink, namex), file descriptors, pipe and device files in fileread and filewrite: not modelled.
- LogDevice.LogDevice.LogWrite: changing the cached block and log_write are one step, as the buffer lock covers both.
- Processes: proc.c is modelled on values, as steps of all processors, since a sequential class cannot show interleavings; pids, exit status, open files, time statistics and memory of processes are left out, and kwait_stat follows the same steps as kwait.
- FileSystem.FileSystem.Writei: for a file with a gap before the block in which the source ends, a call that tears may stop at the gap on a full disk instead; no operation makes such a gap.
- FileSystem.FileSystem.Filewrite: the chunks run back to back; other writers of the same file between two chunks are not modelled, and a write that begins with a block changed outside the log has no record of transactions.
- Allocator.Allocator.Malloc: a request above 0x7FFFFFE0 bytes that no free block serves is excluded; the search loop is written as at most two laps with morecore between them, which is what the source's loop does; addresses are in header units, and sbrk is a parameter that refuses or grants memory above the break.
- Vm.Memory.Mappages: a page for a process's own memory must be one that nothing else uses, which is the caller's part in the account of pages.
- Vm: pages below the trapframe belong to one address space; mappings of shared regions, the kernel page table, vmfault, copyin, copyout and uvmclear are not part of it.
- Shm.Shm.Open: kalloc returns any free page, the contents of pages (cleared in a new region) are left out, and a size above 0x7FFFF000, for which the rounding to pages overflows a signed int, is excluded.
- Shm.Shm.MapRegion: the page table of a process is a flat map, and memory for page tables is a number of pages that can be mapped; trees and the free list are in Vm.
- Shm.Shm.Sbrk: eager growth and the private pages that growproc allocates are left out (Vm.Memory.Uvmalloc has them); a process that exits or shrinks past a region without closing it is excluded, because freeproc does not detach.
- Virtio.Disk.Complete: the device returns each head that it has taken once, with status 0; what it moves between buffer and disk, registers, fences and feature negotiation are left out.
- Pipe.Pipe.Write: copyin failures and a kill are numbers of bytes after which they happen; a sleep ends the method, and a new call goes on where it stopped.
- Shell: running commands, reading lines and memory for nodes are left out.
- Grep: reading and splitting input into lines is left out.
- exec, traps, system call dispatch, console, UART, PLIC, the user mutex, read counter and process information calls: left out, as are the programs of the second project.
