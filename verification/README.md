# melonOS: a verified model of the kernel core

A Dafny model of four parts of the melonOS kernel and its tools, with proofs of what they promise.

**Virtual memory** (`Mmu`, `Frames`, `Palloc`, `Pgtbl`, `Vmem`, `UserMem`, `Loader`, `ArgStack`, `Exec`,
`Marks`, `Spaces`, `FirstSpace`, `Runs`).
Physical memory is 0x20000 frames of 1024 words. Page directories, page tables and the links of the free list are words
in frames, read and written by the same loops as in the source, with 32-bit wrapping where the source relies on it. A
ghost map gives every frame handed to the allocator one owner: on the free list, a directory, the table of one slot of a
directory, one user page of one directory, or taken by something else. `Frames.Inv` ties that map to the words in memory.
`get_pte` is modelled as it is: for an absent directory entry it reads frame 0, and the invariant that frame 0 names no
allocatable frame is carried through every operation. Entries are constrained up to the accessed and dirty bits, which the
MMU sets by itself. Failures are exact: each operation that takes frames says how many must be free. `Runs` puts all
processes over one memory: a step relation for each call, whole runs of them from boot on, frame conservation and isolation
over every run, and the class that makes the calls.

**Processes, locks, pipes, mutexes** (`ProcTable`, `Spinlock`, `Kernel`, `KernelSafety`, `KernelRuns`, `KernelTheorems`,
`KernelProgress`, `KernelCalls`, `KernelWait`, `KernelFamily`, `Monitor`, `Pipe`, `PipeCalls`, `Mutex`). `Kernel` is a step
machine of the one CPU: a context is the list of operations it has still to run, `swtch` hands the CPU from one to another,
interrupts are steps enabled while the interrupt flag is on, and the system calls and handlers are the most general client
that respects the lock discipline. What is proved of it is safety over every run, what each call has done from its first
step to its last, and that the scheduler passes nobody over. `Monitor` is the sleep/wakeup protocol with every step of
`lock`, `sleep` and `wakeup` separate and any number of processes interleaved at each step, which covers what one CPU can
schedule; pipes and mutexes are built on it, and are judged by what their callers see: a history of a run is taken from its
calls and returns alone. The table scans and the lock functions are also written as loops and methods, proved equal to the
functions the machine uses.

**Files** (`Bytes`, `FsLayout`, `Files`, `Mkfs`, `Inodes`, `ImageRoundTrip`). The bytes of the disk image: packed inodes,
direct blocks and one block of pointers. `mkfs` writes them, the kernel reads and writes them, and both are proved against
one view, a byte array per file, with a ghost map from block to its one use.

**Numbers and strings** (`Strings`, `Numbers`). `memmove`, `strrev`, `print_uint` and `strtol`.

Where a promise is false of the code, the model keeps the code and states exactly when it holds:

- `uva2ka` sees a user page that is not there when the word of frame 0 that stands in for a missing table is present and
  user-accessible (`UserMem.Uva2KaExact`, `UserMem.AliasExample`).
- `exec` frees its new directory twice exactly when 1 to 136 frames are free (`Exec.FreesTwice`): `kvm_allocate` frees it on
  failure and leaves its address in place. With one free frame the free list becomes a loop (`Exec.VmFreeAgain`,
  `Exec.NoList`); with more, the link in the freed directory is taken for a table outside memory (`Exec.FreeFailed`).
- `uvm_copy`, and `fork` with it, loses a frame exactly when the frames run out where a table starts with one frame left
  (`Vmem.LosesFrame`; the least case is `Vmem.LosesOnePage`).
- `uvm_init1` ignores the result of `map_pages`: with exactly 139 free frames `init_pid1` starts a process that has no page
  (`Runs.ProcessSpaces.Start`). At boot there are always more (`Runs.Session`).
- `grow_process` that shrinks to exactly 0 frees the pages but reports failure and keeps the size
  (`Runs.ProcessSpaces.Grow`); a later fork of that process panics (`Spaces.CopyPanics`).
- `exec` accepts 33 arguments and then writes past its buffer (`ArgStack.TerminatorIndex`).
- A pipe writer that gives up at a full pipe does not wake the readers (`Pipe.NoLostWakeups`, `Pipe.LosesOne`). The kernel
  sets `killed` only for the process that faults in user mode, so no shipped caller gives up that way yet.
- The check at the start of `pipe_read` and `pipe_write` compares wrapped counters (`Pipe.CounterCheck`), and can stop the
  kernel (`Pipe.CheckFires`).
- Upper-case printing is right for exactly the numbers without a decimal digit (`Numbers.UpperRight`).
- The comment on `uvm_copy` speaks of a number of pages; the code takes a size in bytes, and the model follows the code.

Panics of the source are preconditions where the model shows no caller reaches them, and states or results of the machine
elsewhere.

## Model

| member | source | states |
|---|---|---|
| `Mmu.AddressFields` | i386/mmu.h:67-117 | splitting an address into directory index, table index and offset and joining them again gives the address, and the two indices number its page |
| `Mmu.AddressFieldsInverse` | i386/mmu.h:67-117 | joining any two indices and an offset and splitting gives them back |
| `Frames.TakeFree` | kernel/memory/palloc.c:40-49 | taking the head of the list keeps every frame in one place |
| `Frames.PutFree` | kernel/memory/palloc.c:75-101 | linking an unowned frame in front keeps every frame in one place, though the link overwrites the frame's first word |
| `Frames.Dissolve` | kernel/memory/vmem.c:485-502 | when the pages, tables and the directory itself change hands together, all other frames keep their owners and contents |
| `Palloc.Memory.constructor` | kernel/memory/palloc.c:30-34 | an allocator that owns nothing meets the invariant |
| `Palloc.Memory.Alloc` | kernel/memory/palloc.c:40-49 | returns 0 exactly when the list is empty, else removes its first frame and touches no memory |
| `Palloc.Memory.Free` | kernel/memory/palloc.c:75-101 | the page is the new head, its first word the old head; a frame in hand goes back soundly |
| `Palloc.Memory.FreeRange` | kernel/memory/palloc.c:21-26 | exactly the whole pages of the range join the list, each once, and no other page is touched |
| `Pgtbl.GetPteMeaning` | kernel/memory/pgtbl.c:19-44 | points into the directory's own table, or, for an absent entry, into frame 0 |
| `Pgtbl.Walk` | kernel/memory/pgtbl.c:54-68 | finds the entry or makes its table at the cost of one free frame; null only with no free frame and no table, and then nothing changed; no translation of any directory changes |
| `Pgtbl.MapPages` | kernel/memory/pgtbl.c:78-106 | enters every page of the range, also when its end wraps to 0, exactly if the free frames cover the tables to make, else stops after an exact prefix; terminates; nothing else is translated differently |
| `Pgtbl.UnmapPages` | kernel/memory/pgtbl.c:113-150 | the range translates to nothing, exactly its user frames are free, everything else is kept, and in frame 0 words are only cleared |
| `Pgtbl.ClearUser` | kernel/memory/pgtbl.c:165-174 | one page loses its user bit and stays mapped |
| `Vmem.UvmDeallocate` | kernel/memory/vmem.c:431-448 | exactly the pages between the two sizes are unmapped and freed |
| `Vmem.UvmAllocate` | kernel/memory/vmem.c:314-349 | all or nothing: every new page has its own zeroed frame, or 0 is returned and every page of every directory is as before; it succeeds exactly if the free frames cover the new pages and their absent tables |
| `Vmem.VmFree` | kernel/memory/vmem.c:485-502 | exactly the frames of the directory, its pages, tables and itself, become free, no other directory changes |
| `Vmem.KvmAllocate` | kernel/memory/vmem.c:107-133 | a new directory that holds the kernel map, exactly if 137 frames are free, or every frame back where it was, with the freed directory, if there was a frame for it, at the head of the list |
| `Vmem.KmapShape` | kernel/memory/vmem.c:36-75 | the number of pages of each of the four ranges, the one that wraps to 0 included, and the entry every page of it gets |
| `Vmem.KernelSlotCount` | kernel/memory/vmem.c:36-75 | the kernel map takes 136 tables, whatever the size of the kernel's text |
| `Vmem.UvmCopy` | kernel/memory/vmem.c:376-425 | a private copy of every page below the size, words and flags, exactly if the free frames cover directory, pages and tables; on failure everything is as before, but for one lost frame exactly when LosesFrame holds of the free frames and pages |
| `Vmem.LosesOnePage` | kernel/memory/vmem.c:404-421 | with 138 free frames, copying a one-page space loses a frame |
| `UserMem.Uva2KaExact` | kernel/memory/vmem.c:82-89 | finds what the MMU finds if and only if the table is present or frame 0 has no user-accessible word there |
| `UserMem.AliasExample` | kernel/memory/vmem.c:82-89 | a sound memory in which it reports a page of an empty directory |
| `UserMem.CopyIn` | lib/string.c:18-28 | the bytes of a page after part of it was copied over |
| `UserMem.UvmMemcpy` | kernel/memory/vmem.c:456-477 | success: user space holds the buffer there; failure: only a prefix that ends at a page the user cannot reach was written; every byte of every frame that changed, the guard page's included, is one user code reaches in the written range |
| `Loader.UvmLoad` | kernel/memory/vmem.c:280-303 | succeeds exactly if the file is long enough, and then its bytes are at the address |
| `Loader.LoadSegments` | kernel/exec.c:46-79 | succeeds exactly if every PT_LOAD header is acceptable and the frames suffice; for ascending page-disjoint ones every segment's file bytes and zero fill are then read at its address; the space ends at the last end |
| `Loader.LoadSegment` | kernel/exec.c:54-78 | one header: accepted exactly if its sizes, alignment and file range are sound and the frames suffice |
| `ArgStack.CopyArgs` | kernel/exec.c:143-154 | succeeds exactly for at most 33 strings that fit the stack page, each string at the address recorded for it; the guard page stays |
| `ArgStack.SafeAlias` | kernel/exec.c:147-152 | every write of an image that stays above address 0, or below it within the device range, goes through tables that are there, so what frame 0 holds does not matter |
| `ArgStack.TerminatorIndex` | kernel/exec.c:144-157 | the null that ends the pointers is inside the buffer exactly for at most 32 strings; for 33, which the loop accepts, it is the word just past it |
| `ArgStack.BuildStack` | kernel/exec.c:137-183 | succeeds exactly if the whole image fits the stack page, and user code then reads fake return, argc, argv = sp + 12, a null-terminated array and every string; the guard page below stays inaccessible |
| `Exec.BuildSpace` | kernel/exec.c:42-183 | a complete space, guard page included, exactly if the segments are acceptable, the space and the free frames suffice and the arguments fit; else every frame is back where it was, unless 1 to 136 frames were free, and then exactly the directory is freed twice; no other process's memory changes |
| `Exec.VmFreeAgain` | kernel/memory/vmem.c:485-502 | vmfree of an empty directory that is the head of the free list links it to itself |
| `Exec.NoList` | kernel/memory/palloc.c:75-101 | a free list whose head is linked to itself is no list of any frames |
| `Exec.FreeFailed` | kernel/exec.c:208-211 | on a failed kvm_allocate: nothing without a frame; with one, the free list is a loop and the invariant is gone; with more, the first entry of the freed directory names no frame of memory |
| `Exec.FittingIsSafe` | kernel/exec.c:137-183 | an argument image of up to two pages and 32 megabytes needs nothing of frame 0 |
| `Exec.ProgramKept` | kernel/exec.c:204-206 | freeing the old directory leaves the new program, its stack and its guard page as they are |
| `Exec.ExecProgram` | kernel/exec.c:42-211 | succeeds exactly under the same condition; the old directory's frames are then free and the new program, stack, guard and size are as promised after the teardown; on failure ownership is unchanged, unless 1 to 136 frames were free |
| `Spaces.KernelTranslation` | kernel/memory/vmem.c:36-133 | every address of a new directory: va - KERN_BASE in the direct map, identity for devices, absent elsewhere, never user, text read-only |
| `Spaces.WriteIsolated` | kernel/memory/vmem.c:456-477 | a change confined to one directory's pages changes no byte another directory reads |
| `Spaces.ForkedAlike` | kernel/process.c:335-342 | parent and child read the same bytes and flags below the size and share no user frame |
| `Spaces.ForkedApart` | kernel/memory/vmem.c:376-477 | after a fork, a write into child or parent leaves every byte below the size that the other reads as it was before the fork |
| `Spaces.CopyPanics` | kernel/memory/vmem.c:390-395 | uvm_copy meets no absent page exactly if the space has not shrunk to 0 |
| `FirstSpace.UvmInit1` | kernel/memory/vmem.c:183-206 | one zeroed page at address 0 with the program's bytes, exactly if a frame for it and its table is free; without the second the page is filled and mapped nowhere |
| `FirstSpace.FirstFilled` | kernel/process.c:275-285 | user code then reads the program, zeros up to a page, and nothing else |
| `FirstSpace.FirstUnfilled` | kernel/memory/vmem.c:198-205 | with the page mapped nowhere user code reads nothing and the page is lost |
| `Runs.AllPlaced` | kernel/memory/palloc.c:21-101 | every frame given to the allocator is in exactly one place: the free list, one address space, one kernel stack, or lost |
| `Runs.StepLoose` | kernel/memory/vmem.c:404-421 | a call loses one frame exactly if it is a fork whose free frames, less the kernel stack, meet LosesFrame; no other call loses any |
| `Runs.RunConserves` | kernel/process.c:300-413 | over every run of calls by all processes the frames are the same and the lost ones are one for each fork that met the condition, so none if none did |
| `Runs.AgreesOrHollow` | kernel/process.c:300-342 | throughout every run the pages of a process are exactly those its size calls for, unless it has shrunk to exactly 0 |
| `Runs.NoHoles` | kernel/process.c:300-319 | and without a call that shrinks to exactly 0 there is no such process |
| `Runs.RunIsolated` | kernel/memory/vmem.c:314-502 | over every run a process reads the same bytes at the same size until it itself grows, executes, exits or is written to, whatever the others do and whether their calls succeed |
| `Runs.ProcessSpaces.Start` | kernel/process.c:266-296 | init_pid1: the first process reads its program on page 0 exactly if 140 frames were free; with 139 it is hollow and a frame is lost; a panic exactly below that or for a program over a page |
| `Runs.ProcessSpaces.Fork` | kernel/process.c:326-342 | exactly if the frames suffice for kernel stack and copy, a child of the same size with its own copy and stack; else all is as before, but for the lost frame; other processes read what they read |
| `Runs.ProcessSpaces.Grow` | kernel/process.c:300-319 | when it succeeds; new pages read as zero, those taken away fault, all else reads as before; size and pages agree afterwards if and only if it did not shrink to exactly 0 |
| `Runs.ProcessSpaces.Execute` | kernel/exec.c:42-211 | the program is ready in the new directory, exactly if it is startable, and all spaces still agree with their sizes; a hollow space is healed; nothing is promised exactly when the directory is freed twice |
| `Runs.ProcessSpaces.Reap` | kernel/process.c:213-232 | exactly the frames of the process's space and its kernel stack become free |
| `Runs.ProcessSpaces.CopyOut` | kernel/memory/vmem.c:456-477 | uvm_memcpy into one process: the bytes there, no other byte of any frame, and all spaces kept |
| `Runs.ProcessSpaces.Store` | kernel/memory/pgtbl.c:19-44 | a program's store lands exactly where its own page is writable, and nowhere else |
| `Runs.ProcessSpaces.Access` | i386/mmu.h:44-54 | the marks the MMU sets in the tables keep all spaces, and no program reads anything else |
| `Runs.ProcessSpaces.Make` | kernel/process.c:300-413 | one call relates the states before and after as its step says, or is one at which the kernel stops |
| `Runs.ProcessSpaces.Run` | kernel/process.c:300-413 | yields a run, state by state from the present one to the one it leaves, of all the calls or up to one at which the kernel stops |
| `Runs.Boot` | kernel/kmain.c:30-33 | the kernel's directory and no process, with every frame above the kernel placed, exactly if 137 frames lie between the kernel and 4 megabytes |
| `Runs.Session` | kernel/kmain.c:30-44 | boot, the first process and any calls: a run in which every frame above the kernel stays placed and the lost ones are one for each fork that met the condition |
| `Marks.MarkDir` | i386/mmu.h:50-54 | setting the accessed bit of a directory entry keeps the invariant and every translation |
| `Marks.MarkEntry` | i386/mmu.h:44-47 | setting the accessed or dirty bit of a table entry keeps the invariant and changes that entry only |
| `Marks.Touch` | kernel/memory/pgtbl.c:19-44 | a translation by the MMU changes no mapping, right or page |
| `ProcTable.PTable.GetUnusedProcess` | kernel/process.c:111-120 | the first unused slot from 1 on |
| `ProcTable.PTable.WakeupUnlocked` | kernel/process.c:491-500 | exactly the sleepers on the channel become ready |
| `ProcTable.PTable.ExitScan` | kernel/process.c:377-389 | the loop gives all children to init, wakes the parent, wakes init exactly if a dead child came to it, and marks the process dead |
| `ProcTable.PTable.WaitScan` | kernel/process.c:402-413 | frees the first dead child and returns its pid, or tells whether there is a child |
| `Spinlock.Pushed` | kernel/trap/ncli.c:14-21 | keeps the lock discipline and the interrupt setting to return to |
| `Spinlock.Popped` | kernel/trap/ncli.c:24-30 | likewise, and restores the flag at the last pop |
| `Spinlock.Core.PushCli` | kernel/trap/ncli.c:14-21 | the new CPU state |
| `Spinlock.Core.PopCli` | kernel/trap/ncli.c:24-30 | the new CPU state, or a panic exactly when interrupts are on or nothing is pending |
| `Spinlock.Core.Holding` | kernel/process/spinlock.c:19-25 | whether the lock is held, with the CPU left as it was |
| `Spinlock.Core.Lock` | kernel/process/spinlock.c:32-42 | panics exactly if the lock is held; held locks stay at most ncli |
| `Spinlock.Core.Unlock` | kernel/process/spinlock.c:45-54 | panics exactly if the lock is not held; held locks stay at most ncli |
| `Spinlock.LockUnlock` | kernel/process/spinlock.c:32-54 | locking and unlocking restores the CPU, interrupt flag included |
| `KernelSafety.ExitTree` | kernel/process.c:370-392 | after an exit every live process still has a live, older parent |
| `KernelSafety.ExitPids` | kernel/process.c:370-392 | the exited pid is new among the exited and borne by one zombie |
| `KernelSafety.ExitWaiters` | kernel/process.c:370-392 | after an exit nobody sleeps in wait with a dead child or without a child |
| `KernelSafety.ReapPids` | kernel/process.c:406-410 | a reaped pid was not reaped before and belongs to no other process |
| `KernelSafety.SlotKeeps` | kernel/process.c:183-205 | allocating, filling, readying or giving back a slot keeps tree, pids and waiters |
| `KernelSafety.WokenRelabels` | kernel/process.c:491-500 | exactly the sleepers on the channel become ready, and nobody else changes in any field |
| `KernelRuns.SwitchOut` | kernel/process.c:433-452 | giving up the CPU keeps the whole invariant, with no panic of sched |
| `KernelRuns.DispatchKeeps` | kernel/process.c:581-634 | resuming a ready process keeps the whole invariant |
| `KernelRuns.SleepKeeps` | kernel/process.c:461-487 | a process that sleeps holding one lock keeps the whole invariant |
| `KernelRuns.WaitKeeps` | kernel/process.c:396-428 | a wait that finds nothing dead keeps the whole invariant |
| `KernelRuns.TrapKeeps` | kernel/trap.c:202-265 | system calls, faults and interrupts at any point keep the whole invariant |
| `KernelRuns.StepKeeps` | kernel/process.c:94-643 | every step of every operation keeps the whole invariant |
| `KernelTheorems.LockDiscipline` | kernel/process/spinlock.c:19-54 | in every run: held locks at most ncli, interrupts on only with ncli 0, no lock or sched check panics, running code finds its own locks and interrupt setting |
| `KernelTheorems.SwitchHandover` | kernel/process.c:433-643 | every switch has only ptable.lk held, ncli 1, interrupts off, and is between the scheduler and a process |
| `KernelTheorems.RegainsIntOn` | kernel/process.c:448-452 | a process resuming from sched, after any steps of others, regains the int_on it left with |
| `KernelTheorems.OneRunningProcess` | kernel/process.c:574-643 | a process is RUNNING exactly when the CPU is on its stack, and it is then cpu.proc; so at most one, and none in the scheduler |
| `KernelTheorems.ProcessTree` | kernel/process.c:183-428 | every live process but init has a live, older parent, live pids differ, and who is asleep in wait has a child and no dead one |
| `KernelTheorems.AllFromInit` | kernel/process.c:379-387 | the parent links of every live process lead to init |
| `KernelTheorems.ReapedOnce` | kernel/process.c:396-428 | each exited pid is reaped at most once, and until then exactly one zombie has it |
| `KernelProgress.SchedulerScans` | kernel/process.c:574-643 | in every run: from slot i the scan brings the CPU to the first ready process, running and where it left off; with none ready the lock is let go and the scan restarts, the table unchanged |
| `KernelProgress.InitExecutes` | kernel/process.c:574-643 | from boot init is in user mode, running, with interrupts on, eight steps later |
| `KernelProgress.NobodyPassedOver` | kernel/process.c:581-637 | in every run: while a process stays ready, others are dispatched at most as often as there are slots from the scheduler's place round to its own, never more than 64 times |
| `KernelCalls.CallsOfRuns` | kernel/process.c:326-428 | in every run fork, wait and exit are called by the process on the CPU with no lock held, so what follows covers every such call |
| `KernelCalls.UserOfRuns` | kernel/trap.c:202-265 | in every run a process in user mode is the running one, with no lock held and interrupts on |
| `KernelCalls.ForkMakesChild` | kernel/process.c:183-363 | fork, whole: the least unused slot becomes a ready child with the next pid, set to return to user mode, and nothing else changes; nothing without a slot; a panic past the last pid |
| `KernelCalls.ForkGivesUp` | kernel/process.c:152-157 | without kernel stack or copy the slot is unused again |
| `KernelCalls.ExitDies` | kernel/process.c:370-392 | exit, whole: exactly the caller is dead, its children init's, its parent and, if a dead child came to it, init awake, and the scheduler has the CPU |
| `KernelCalls.SleepGoesToSleep` | kernel/process.c:461-480 | sleep up to the switch: the caller is asleep on the channel, its lock free, the scheduler under the table's lock |
| `KernelCalls.SleepComesBack` | kernel/process.c:478-487 | and once resumed: off the channel, its lock held again, interrupts due back as before |
| `KernelCalls.WakeupWakes` | kernel/process.c:491-508 | wakeup, whole: exactly the sleepers on the channel are ready, nothing else changes |
| `KernelCalls.ClientGetsLock` | kernel/process/spinlock.c:32-42 | lock, whole: the lock is held, interrupts are off and due back as before |
| `KernelCalls.ClientGivesLock` | kernel/process/spinlock.c:45-54 | unlock, whole: the lock is free, and interrupts are back exactly after the last |
| `KernelCalls.TimerYields` | kernel/trap.c:202-265 | an interrupt in user mode ends with the process ready and the scheduler at work |
| `KernelCalls.YieldComesBack` | kernel/trap.c:202-265 | and the process, once resumed, is back in user mode with interrupts on |
| `KernelCalls.FaultKills` | kernel/trap.c:202-265 | a fault in user mode kills the process, or, if it is init, panics |
| `KernelWait.WaitScans` | kernel/process.c:401-427 | in every run: the scan frees the first dead child and reaps its pid alone; with children but none dead the caller sleeps on itself; else it returns with the table unchanged |
| `KernelWait.WaitReturns` | kernel/process.c:396-428 | every wait of every run that returns was decided by one scan, before which the caller reaped nothing: it reaped one dead child there, or had no child, or was killed |
| `KernelWait.DeadNeverRun` | kernel/process.c:389-391 | in every run nobody with a pid that has exited is ever on the CPU again |
| `KernelWait.KilledDies` | kernel/trap.c:202-265 | in every run a killed process is dead or on its way to exit with interrupts off; it executes no user code and no system call |
| `KernelFamily.CallReturns` | kernel/trap.c:239-256 | a system call that returns gives the CPU to the others before user mode |
| `KernelFamily.FirstFamily` | kernel/process.c:326-428 | a run from boot in which init forks, waits asleep, its child exits, and the wait reaps it |
| `Monitor.ProtoKeeps` | kernel/process.c:461-508 | each step of lock, sleep and wakeup keeps each lock with one holder |
| `Monitor.ProtoSleepers` | kernel/process.c:461-508 | only its own release inside sleep puts a process to sleep, and a wakeup leaves no sleeper on its channel |
| `Monitor.NoDeadlock` | kernel/process.c:461-508 | where no step of the protocol changes anything both locks are free and whoever is inside a call is asleep |
| `Monitor.Resumes` | kernel/process.c:478-487 | a woken process is back at its code with the lock in three steps, if both locks are free |
| `Pipe.PopFifo` | kernel/pipe.c:112-115 | a read byte is the oldest unread one |
| `Pipe.PushFifo` | kernel/pipe.c:139 | a written byte overwrites no unread one |
| `Pipe.PipeIsFifo` | kernel/pipe.c:98-144 | in every run: bytes read followed by the live ring are the bytes written, at most 512 apart, and no counter check fires below 2^32 bytes |
| `Pipe.ReadsReturnStream` | kernel/pipe.c:112-119 | in every run: the buffers the reads fill, in the order they held the lock, followed by the live ring are the bytes written |
| `Pipe.CounterCheck` | kernel/pipe.c:99 | the check passes if and only if both counters have wrapped equally often |
| `Pipe.CheckFires` | kernel/pipe.c:98-144 | a run of one process, a byte in and a byte out each time, in which the check stops the kernel |
| `Pipe.NoLostWakeups` | kernel/pipe.c:81-144 | in every run: whenever the lock is free a sleeping reader has an empty pipe with its write end open, a sleeping writer a full one with its read end open, never both, if and only if no writer gives up at a full pipe while a reader sleeps |
| `Pipe.NoLostWhileCalm` | kernel/pipe.c:81-144 | so it holds while no process inside pipe_write is killed and the read end is not closed over a sleeping reader |
| `Pipe.LosesOne` | kernel/pipe.c:130-134 | a run in which a writer killed inside pipe_write leaves a reader asleep on a full pipe |
| `PipeCalls.StreamIsWritten` | kernel/pipe.c:122-144 | in every run: each byte of the stream is from the buffer of a pipe_write call, and each call's bytes are its first, second, and so on, in order |
| `PipeCalls.WritesAll` | kernel/pipe.c:122-144 | a pipe_write that returns has written its whole buffer and returns its size; -1 only at a full pipe, closed to readers or for a killed process |
| `PipeCalls.ReadsWhatIsThere` | kernel/pipe.c:98-119 | a pipe_read of n bytes returns n, or all there was when it took its first, in one piece of the stream; 0 only for n = 0 or at the end of the stream; -1 only for a killed process at an empty pipe |
| `PipeCalls.ClosesStay` | kernel/pipe.c:81-95 | an end is closed for good by a pipe_close of it and by nothing else |
| `PipeCalls.NoDeadlocks` | kernel/pipe.c:81-144 | where nobody can move, everyone is outside or asleep; in a run that strands nobody, asleep on an empty pipe with a writer or a full one with a reader |
| `Mutex.MutualExclusion` | kernel/process/mutex.c:17-49 | in every run, by its calls and returns: at most one process between the return of its lock_mutex and that of its unlock_mutex; the mutex is locked with its pid from then until its unlock_mutex clears it and at no other time; holding_mutex answers each caller whether it is the one; with the inner lock free a sleeper implies it is locked |
| `Mutex.NoDeadlocks` | kernel/process/mutex.c:30-49 | where nobody can move, everyone is outside or asleep, and a sleeper's mutex is locked by a process outside |
| `Mutex.TakesFree` | kernel/process/mutex.c:30-38 | in every run a free mutex is taken: lock_mutex returns holding it |
| `FsLayout.LayoutConstants` | mkfs/mkfs.c:54-73 | where the inode, bitmap and data blocks start |
| `FsLayout.InodeRoundTrip` | kernel/fs/fdefs.h:26-33 | a packed inode survives the trip through its 66 bytes |
| `FsLayout.InodeOffsets` | kernel/fs/fdefs.h:26-33 | type, major, minor, links, size and the 13 addresses lie at bytes 0, 4, 6, 8, 10 and 14 on of the packed inode, low byte first |
| `FsLayout.NodeSlots` | kernel/fs/inode.c:40-53 | an inode written to its slot is read back there, the other six slots are unchanged |
| `FsLayout.EntrySlots` | mkfs/mkfs.c:288-293 | a pointer written to a pointer block is read back there and nowhere else |
| `Files.NeverShared` | mkfs/mkfs.c:252-312 | no two places of any files are one block, and no data block is a pointer block |
| `Files.FlushInode` | kernel/fs/inode.c:133-138 | writing the inode last gives the file its new size and bytes and leaves the other files alone |
| `Mkfs.Image.constructor` | mkfs/mkfs.c:54-73 | the cleared image is sound |
| `Mkfs.Image.MapDirect` | mkfs/mkfs.c:278-282 | a direct block is found or taken, at an exact cost; fails exactly past the image |
| `Mkfs.Image.MapIndirect` | mkfs/mkfs.c:283-293 | likewise through the pointer block, which is made if needed |
| `Mkfs.Image.AppendPart` | mkfs/mkfs.c:274-307 | one round of the loop extends the file by its part |
| `Mkfs.Image.IRead` | mkfs/mkfs.c:229-236 | the inode of that number |
| `Mkfs.Image.IWrite` | mkfs/mkfs.c:240-248 | only that inode's slot changes |
| `Mkfs.Image.IAlloc` | mkfs/mkfs.c:215-225 | a new empty file of that type with one link, the others unchanged |
| `Mkfs.Image.IAppend` | mkfs/mkfs.c:252-312 | the file is its old bytes followed by the new ones, all others unchanged; the program ends exactly if the blocks do not suffice, else exactly the blocks needed are taken |
| `Mkfs.Build` | mkfs/mkfs.c:215-312 | for every order of calls each file is the concatenation of its appends, and the image is built exactly if its data blocks suffice for the files |
| `Mkfs.NeedOfFile` | mkfs/mkfs.c:274-297 | an append costs exactly the growth of the file's blocks, its pointer block included |
| `Mkfs.BlocksGrow` | mkfs/mkfs.c:252-312 | later calls never need fewer blocks |
| `Inodes.Volume.InodeLoad` | kernel/fs/inode.c:112-129 | the cached inode agrees with the disk |
| `Inodes.Volume.InodeBmap` | kernel/fs/inode.c:160-203 | the block that holds the nth part, for mapped blocks |
| `Inodes.Volume.InodeFlush` | kernel/fs/inode.c:133-138 | the cached inode is on the disk, the other slots unchanged |
| `Inodes.Volume.InodeRead` | kernel/fs/inode.c:251-291 | exactly the slice of the file, cropped at its size; -1 exactly for an offset past the end or a wrapping range |
| `Inodes.Volume.InodeWrite` | kernel/fs/inode.c:301-340 | the file is overwritten there and grows in memory and on disk, other bytes and files unchanged; -1 exactly for the three bad ranges, and then nothing changes |
| `Inodes.OverwrittenAt` | kernel/fs/inode.c:301-340 | a read after a write finds the new bytes there and the old ones elsewhere |
| `ImageRoundTrip.BuildAndRead` | mkfs/mkfs.c:215-312 | what the kernel reads from an image built in any order is that slice of the appended bytes, for exactly the files whose blocks fit |
| `Strings.MemMove` | lib/string.c:18-28 | the destination holds the old source for every overlap, the rest is unchanged |
| `Strings.StrRev` | lib/string.c:77-90 | the text before the terminator is reversed in place |
| `Strings.ReversedTwice` | lib/string.c:77-90 | reversing twice is no change |
| `Numbers.FitsBuffer` | lib/fmt.c:39-60 | a 32-bit number has at most ten digits in base 10 or 16, so the 32-byte buffer suffices |
| `Numbers.PrintUint` | lib/fmt.c:39-60 | the terminated numeral of n, each digit as it is or through toupper |
| `Numbers.DigitShown` | lib/ctype.c:44-48 | toupper gives the right letters and turns every decimal digit into a control character, since its range test is always true |
| `Numbers.UpperRight` | lib/fmt.c:39-60 | the upper-case numeral is the right one for exactly the numbers without a decimal digit, so never in base 10 |
| `Numbers.Strtol` | lib/stdlib.c:36-93 | the value of the longest run of digits after blanks, sign and prefix, and where it ends |
| `Numbers.DigitTable` | lib/stdlib.c:54-83 | the digits of a base are its characters in the two tables, small and capital, each worth its place |
| `Numbers.NumeralValue` | lib/stdlib.c:54-83 | the value of the numeral of n, in small or capital letters, is n |
| `Numbers.TextBack` | lib/stdlib.c:36-93 | blanks, a sign or none, blanks and a number, in decimal, octal after 0, or hexadecimal after 0x in small or capital letters: parsed to its value, its sign and its end |
| `Numbers.ParseText` | lib/stdlib.c:36-93 | strtol of any such text is n, or -n after a minus, and ends at the terminator, for every n that a long holds |
| `Numbers.PrintAndParse` | lib/fmt.c:39-60 | for every n below 2^31 what is printed parses back to n, with the end at the terminator |

## Left out

- UserMem.UvmMemcpy: requires that frame 0 offers no user-accessible word where the range has no table, which is exactly when uva2ka is right; otherwise it writes to whatever that word names.
- Exec.BuildSpace: arguments longer than the whole new program by over 32 megabytes, whose copy wraps below the device range, are covered only if frame 0 has no user-accessible word. After the second vmfree with two or more free frames, which reads a table outside memory, no more of the state is described.
- Runs.ProcessSpaces.CopyOut: like uvm_memcpy, only where uva2ka is right; the kernel itself calls it in exec only.
- Runs.ProcessSpaces.Execute: nothing is promised when the directory is freed twice; a run stops there.
- Runs.ProcessSpaces.Make: stops at an exec with 33 arguments, or with arguments that wrap below the device range while frame 0 has a user-accessible word, also where exec would fail before it copies them.
- Exec.ExecProgram: the path lookup, the ELF header and the entry point are parameters, and so are not among its failures.
- ArgStack.BuildStack: an argument vector of exactly 33 strings, for which exec writes one word past its buffer (ArgStack.TerminatorIndex), is excluded.
- Pgtbl.UnmapPages: only with its free flag set, as every caller does.
- Pgtbl.ClearUser: clear_pte_flag only with PTE_U, the one flag it is called with.
- Inodes.Volume.InodeWrite: only over blocks the file has; allocation of blocks by the kernel is not modelled.
- Inodes.Volume.InodeBmap: the lookup side only; the branches that allocate a block are not modelled.
- Mkfs.Image.IAppend: files up to MAXFILE; beyond it mkfs would use entries outside its pointer block.
- Mkfs.Build: at most 127 inodes, the number the image has slots for; mkfs does not check it.
- Numbers.PrintUint: bases 10 and 16 only, the two that format uses.
- Numbers.Strtol: overflow of a long wraps, which C leaves undefined; errno is never set because its branch is not reachable.
- Runs.Session: the frame that pipe_open takes for a pipe is not among the calls.
- Runs.ProcessSpaces.Fork: the process slot and the descriptors of the child; the slot is part of the Kernel machine.
- Monitor.ProtoKeeps: that every schedule of the one-CPU machine is an interleaving of Monitor's steps is an argument, not a lemma.
- Pipe.NoLostWakeups: freeing the pipe once both ends are closed is not modelled; file_close does not call pipe_close in the source.
- KernelTheorems.LockDiscipline: two panics remain reachable and are states of the machine, running out of pids and init exiting.
- The kernel machine takes the whole table scan of exit, wait and wakeup as one step, since the table's lock is held with interrupts off; the loops themselves are proved in ProcTable.
- Kernel stacks, trap frames and file descriptors of processes, and the boot of init, are not part of the Kernel machine; the frames of the stacks are part of Runs.
- kvm_switch and uvm_switch, which load registers, and the trap frame of init.
- The buffer cache's list threading and the inode cache: block access is taken as bracketed and synchronous.
- The superblock and the bitmap that mkfs writes: no modelled operation reads them.
- Device files, directories by name, the console, keyboard, disk and serial drivers, and the shell.
