# VMWos in Dafny

VMWos is a small kernel for the Raspberry Pi with a few userspace tools. This project models the parts of it whose correctness
spans functions and files, and proves what they promise. `dafny verify dfyconfig.toml` checks everything.

**Processes, descriptors and memory.** `Kernel.dfy` is a state machine: a world holds the process control blocks, the process list,
the sleep queue of `waitpid`, the two tables of reference counts (file objects and inode entries) and the set of marked chunks.
Its steps are the sections of kernel code between two switches of process, since interrupts stay off inside a system call.
`KernelStructure.dfy` proves the lists, the queue and the absence of lost wakeups in waitpid over every run, `KernelVfork.dfy` exactly
when vfork's sleeper is woken; `KernelReferences.dfy` reference conservation in both layers, over every run and with the exact condition
of every step; `KernelMemory.dfy` the exclusive ownership of memory in the same way, and `KernelLifecycle.dfy` what the life of one child
does to the map; `KernelExit.dfy` how long an exit value waits; `KernelWaiting.dfy` what callers of waitpid have to observe;
`KernelSlots.dfy` that descriptor slots always lead to inodes.
`DescriptorEffects.dfy` and `KernelEffects.dfy` say what each call does to the fields of blocks and tables, independently of the steps.
`KernelBoot.dfy` starts from the state after boot; `KernelRace.dfy` and `KernelEmptyProgram.dfy` are runs from there that go wrong.
`ProcessTable.dfy`, `FileTable.dfy`, `ChunkMap.dfy` and `KernelCalls.dfy` are the imperative counterpart: classes over arrays whose
methods follow the C loops and are proved to take exactly those steps.

Several calls do not keep the counts in every case, and for each the condition under which it does is exact:

- dup2 gives newfd up before it looks at oldfd, so with a closed oldfd its slot keeps a pointer it no longer has a reference for.
- A waiter whose child was destroyed by another waiter in the meantime destroys the block a second time. That takes references
  and chunks away from whoever has them by then (`TwoWaitersRace`). It cannot happen while nobody waits, with or without WNOHANG, for
  a process that somebody else waits for (`KernelWaiting.dfy`).
- open keeps an entry when no file object is left, or when a file is not created in the end.
- execve without memory returns without giving its file object back.
- A lookup under no mount keeps its temporary entry. "/" is mounted before the idle task and init exist and is never unmounted, so only
  the execve of the boot itself can meet this, when that mount failed; for processes, path calls always conserve (`MountedCalls`).

The losses of open and execve leave no dangling pointer: `RunKeepsSafe` and `NoDanglingDescriptor` allow them.

Memory can be lost to others in a second way. A program or stack of size 0 gets one chunk, but freeing size 0 wraps around and frees every
chunk from there on. So waiting for a process that executed an empty file takes away the memory of whoever lies above it, the first time
(`EmptyFile`; an empty file counts as raw unless the buffer for its first bytes still holds the mark of a bFLT file, and a bFLT header can
give size 0 too), and an execve that gets only one of its two blocks does the same if that has size 0 (`EmptyStackBreaks`).

A child that exits without having called execve leaves its parent asleep in vfork for ever (`ForsakenParent`): exit readies only those
inside waitpid. And a process that has exited can run again: every execve makes the parent ready, whatever has become of it (`ExitedRuns`;
`ExitValueWaits` is exact).

**Allocator and page table.** `Memory.dfy`, `ChunkMap.dfy`, `PageTable.dfy`. find_free reports failure by a negative number, which
memory_allocate stores in an unsigned variable and then compares with 0; the model follows the signed result that the comparison intends.
The bound of the search is strict, so the last chunk of a region is never handed out. Descriptors are written as sums of disjoint bit fields.

**Device tree.** `DeviceTree.dfy`: the cells of an abstract tree (section 5.4 of the Devicetree Specification, release v0.2), and the search
over memory words proved to be a depth-first search of that tree.

**MD5.** `Md5.dfy`: RFC 1321 as a table-driven reference, the unrolled steps, and the streaming context. `Md5Vectors.dfy` evaluates the
reference at two test vectors of its appendix A.5.

**Editor.** `Highlight.dfy` is the row scanner and the choice of a syntax, `HighlightMeaning.dfy` what it makes of strings,
comments, numbers and keywords, `RowColors.dfy` what colouring, inserting, removing, splitting
and joining rows does to the colours of the others, `EditorText.dfy` rendering and the effect of edits on lines and joined text,
`Nano.dfy` the editor itself. Colours can go stale: a new row is coloured before the number of rows is raised, so the last row is not
reached; its flag starts out false, whatever the row before it ends with; and removing a row colours nothing. The conditions are exact
(`InsertionKeeps`, `RemovalKeeps`, `SplitKeeps`, `JoinKeeps`). A row's size fields are the lengths of its texts, and `SetChars` is what the
three edits of one row have in common.

**Relocation.** `Relocation.dfy` writes the bFLT file, `BfltLoader.dfy` loads it, and any other; both work on bytes, so the byte order of
the file and of memory is part of what is proved.

**Smaller pieces.** `Dmesg.dfy` (after the ring has overflown, an append can leave it reading as empty; `EmptyExactly` says when),
`Portamento.dfy`, `Calendar.dfy`.

Pointers into the static tables of the kernel are indices, with -1 for NULL. What the filesystem, superblock lookup and file reads answer
are parameters; the filesystem operations are taken to leave the reference counts alone. Where the C code reads bits behind the end of the
chunk map, they are an arbitrary parameter.

## Model

| member | source | states |
|---|---|---|
| `KernelStructure.StepKeepsGood` | kernel/syscalls/syscalls.c:80-135 | every kernel section (open, close, dup2, path calls, vfork, execve, exit, waitpid, its continuation, yield, malloc) keeps the process list, the sleep queue, the tables and the waiting bookkeeping well formed |
| `KernelStructure.RunKeepsGood` | kernel/processes/process.c:85-256 | the same over every run of enabled steps |
| `KernelStructure.NoLostWakeup` | kernel/processes/waitpid.c:72-81 | over every run, in every world: the queue is duplicate-free with NULL links outside it, the list holds exactly the valid blocks in increasing pid order, and whoever sleeps in waitpid() is queued and waits for a block that has not exited, even when an execve woke a queued parent early |
| `KernelStructure.ExitWakesAll` | kernel/processes/exit.c:21-31 | exit() makes everybody on the queue ready before it schedules |
| `KernelVfork.VforkWokenIff` | kernel/processes/vfork.c:60-78 | a parent asleep in vfork is woken by a step if and only if a child of its calls execve, with or without success; exit does not wake it |
| `KernelVfork.VforkSleepsIff` | kernel/processes/vfork.c:60-78 | over every run it sleeps throughout if and only if none of its children comes to call execve |
| `KernelVfork.ForsakenParent` | kernel/processes/exit.c:14-32 | when init forks and the child exits without execve, init sleeps in every run from there: only the idle task goes on |
| `KernelExit.ZombieStep` | kernel/processes/exit.c:14-32 | a step leaves an exited process and its exit value alone, unless it is a waitpid, which destroys it, or an execve of one of its children, which makes it ready again |
| `KernelExit.ExitValueWaits` | kernel/processes/exit.c:20-22 | over every run, the exit value waits throughout if and only if nobody waits for the process and none of its children calls execve |
| `KernelExit.ExitedRuns` | kernel/syscalls/syscalls.c:125-134 | a run from the boot state after which an exited process is the one that runs |
| `KernelReferences.StepConservesIff` | kernel/syscalls/syscalls.c:80-135 | from a world in which every count equals its references, any step of any call keeps that if and only if the call meets its condition: open and a path call that of their lookups, dup2 its guard, execve that of its file and memory, waitpid that no other waiter came first; every other step always does |
| `KernelReferences.RunConservesIff` | kernel/fs/files.c:25-51 | over every run whatever, each file object's count is throughout the number of descriptor slots of valid blocks naming it, and each inode entry's the sum of the counts of its file objects, if and only if every call of the run meets its condition |
| `KernelReferences.ExecConservesIff` | kernel/processes/exec.c:79-85 | execve conserves references exactly when no inode entry is free, or the file does not exist, or it is found with a file object free and memory for both blocks: without memory it returns and keeps the file object |
| `KernelReferences.PathCallConservesIff` | kernel/fs/inodes.c:135-210 | a call that looks a path up conserves references exactly when the path is under a mount or no entry is free |
| `KernelReferences.MountedCalls` | kernel/fs/superblock.c:43-76 | since a path of a process is always under a mount, a path call always conserves references, and an open that creates nothing loses one exactly for want of a file object when a descriptor and an entry are free and the file is found |
| `KernelReferences.RunKeepsSafe` | kernel/fs/files.c:226-321 | over every run whose dup2 calls and second waits meet their conditions, no count falls below its references, whatever other calls lose |
| `KernelReferences.NoDanglingDescriptor` | kernel/fs/files.c:86-113 | in every state so reached, an open slot of a valid block names a live file object whose inode entry is live |
| `KernelReferences.DupConservesIff` | kernel/fs/files.c:786-821 | dup2 conserves references if and only if its guard holds (newfd closed, or oldfd still usable once newfd is given up) |
| `KernelReferences.DestroyConservesIff` | kernel/processes/process.c:238-241 | process_destroy conserves references if and only if the block is still valid or nothing it names is in use |
| `KernelReferences.OpenConservesIff` | kernel/fs/files.c:146-321 | open, with or without O_CREAT, conserves references exactly when no descriptor is free or the conditions of its lookup, its creation and its allocation hold |
| `KernelBoot.DupCounterexample` | kernel/fs/files.c:799-815 | from the boot state, dup2 of a closed descriptor onto standard output breaks conservation |
| `KernelBoot.LosingCalls` | kernel/processes/exec.c:118-126 | from the boot state, a creation that the file system refuses and an execve of a program larger than the memory break conservation; so would the boot's own execve under no mount |
| `KernelRace.TwoWaitersRace` | kernel/processes/waitpid.c:73-80 | a run from the boot state, eleven steps long, in which two processes wait for one child: until then counts and ownership are exact, and the second destruction takes references from the first waiter's successors and marks memory free that a running process owns |
| `KernelEmptyProgram.EmptyFile` | kernel/processes/exec.c:98-131 | a run from the boot state, five steps long, in which a child executes an empty file: until then ownership is exact, and waiting for the child, the first time, marks the other child's memory free |
| `KernelEmptyProgram.PoweredOn` | kernel/memory/memory.c:264-282 | a machine with eight more chunks than the kernel's comes up in a boot state with room for both runs |
| `KernelWaiting.StepKeepsAwaited` | kernel/processes/waitpid.c:72-81 | if nobody calls waitpid for a block that somebody waits for, no two processes wait for the same block and every block destroyed is still valid, step by step |
| `KernelWaiting.AloneConservesIff` | kernel/processes/waitpid.c:72-81 | over every run with such callers, references are conserved throughout if and only if every call other than waitpid meets its condition |
| `KernelWaiting.AloneKeepsMemory` | kernel/processes/waitpid.c:72-81 | and with programs and stacks of nonzero size memory is owned exclusively throughout |
| `KernelWaiting.AloneFromBoot` | kernel/processes/userspace.c:48-61 | both from the boot state |
| `KernelBoot.EveryRun` | kernel/processes/userspace.c:48-61 | both exact run theorems hold of every run from the boot state |
| `KernelBoot.BootIsGood` | kernel/processes/userspace.c:48-61 | the state with idle task and init is well formed |
| `KernelBoot.BootConserves` | kernel/fs/files.c:449-457 | and conserves references |
| `KernelMemory.DestroyKeepsMemoryIff` | kernel/processes/process.c:243-249 | destroying a block, valid or destroyed before, keeps every process's stack and text marked and disjoint from the others' if and only if no chunk it frees belongs to another process |
| `KernelMemory.ValidSparesIff` | kernel/memory/memory.c:224-262 | a block that is still valid frees no chunk of another process if and only if each part of it of size 0 lies above all that others own |
| `KernelMemory.EmptyProgramBreaks` | kernel/processes/process.c:247-249 | destroying a process with an empty program takes away what any other owns above it |
| `KernelMemory.EmptyStackBreaks` | kernel/processes/exec.c:79-85 | so does an execve that gets a stack of size 0 but not its program |
| `KernelMemory.StepKeepsMemoryIff` | kernel/processes/exec.c:72-126 | exclusive ownership survives any step of any call if and only if the step's condition holds: execve has no block of size 0 to give back below the memory of others; waitpid's child, when it is still there, has no part of size 0 below it, and when another waiter destroyed it, left nothing that belongs to somebody by now |
| `KernelMemory.GuardedKeeps` | kernel/processes/process.c:243-249 | a step with nonzero sizes that destroys no block twice meets that condition |
| `KernelMemory.RunKeepsMemoryIff` | kernel/processes/waitpid.c:73-80 | over every run whatever, ownership is exclusive throughout if and only if every step meets its condition |
| `KernelMemory.StepKeepsLedger` | kernel/processes/exec.c:72-85 | a guarded step adds exactly its orphans to the chunks that are marked and owned by nobody: what malloc takes, and the old image when a process with one executes a program |
| `KernelMemory.RunKeepsLedger` | kernel/processes/vfork.c:56-59 | over every guarded run without orphans the unowned chunks stay the same |
| `KernelMemory.DestroyedMemory` | kernel/processes/process.c:243-249 | a valid block of nonzero size gives back exactly its own chunks, so the unowned ones stay the same |
| `KernelMemory.RunReturnsMemory` | kernel/memory/memory.c:141-151 | a run after which the same processes own the same blocks ends with exactly the chunks marked that were marked before |
| `KernelLifecycle.ChildReturnsMemory` | kernel/processes/exec.c:72-224 | vfork, a successful execve of the child and its destruction return the map to its earlier state, whatever else runs in between that neither takes nor gives back memory |
| `Processes.InsertKeepsLinked` | kernel/processes/process.c:85-113 | insertion at the end keeps the list doubly linked |
| `Processes.RemoveKeepsLinked` | kernel/processes/process.c:132-143 | removing any block but the first keeps the list doubly linked over the remaining ones |
| `Processes.RemoveFirstBreaks` | kernel/processes/process.c:126-130 | removing the first block leaves a well-formed list if and only if it was the only one |
| `Processes.ChooseIsNext` | kernel/processes/scheduler.c:32-86 | the search picks the cyclically next ready process, and idle exactly when none is ready |
| `Processes.BoundedBypass` | kernel/processes/scheduler.c:39-86 | with n processes and arbitrary changes of the others, one that stays ready is picked within n calls, also from idle |
| `Processes.EnqueueKeepsQueued` | kernel/processes/waitqueue.c:23-54 | adding to the sleep queue keeps it acyclic, duplicate-free and with NULL links outside, also when the process is on it already |
| `Processes.WakeKeepsQueued` | kernel/processes/waitqueue.c:63-78 | waking empties the queue and clears every link |
| `ProcessTables.ProcessTable.Lookup` | kernel/processes/process.c:49-62 | the first block on the list with this pid; NULL exactly when none has it |
| `ProcessTables.ProcessTable.LookupChild` | kernel/processes/process.c:64-82 | the first other block on the list whose parent is the caller; NULL exactly when there is none |
| `ProcessTables.ProcessTable.Insert` | kernel/processes/process.c:85-113 | the links become those of the list with the block at its end |
| `ProcessTables.ProcessTable.Remove` | kernel/processes/process.c:117-147 | the links become those of the list without the block; nothing changes when it is not on it, and an empty list is answered with -1 |
| `ProcessTables.ProcessTable.Create` | kernel/processes/process.c:150-222 | the first invalid block is cleared, numbered and appended; NULL when there is none |
| `ProcessTables.ProcessTable.Schedule` | kernel/processes/scheduler.c:19-120 | the loop over links terminates and switches to the process that the cyclic search picks |
| `ProcessTables.ProcessTable.WaitQueueAdd` | kernel/processes/waitqueue.c:23-61 | queue, status and the next process are those of the specification |
| `ProcessTables.ProcessTable.WaitQueueWake` | kernel/processes/waitqueue.c:63-78 | the loop over links readies the whole queue |
| `Descriptors.OpenSlotIsLive` | kernel/fs/files.c:96-104 | where no count is below its references, an open slot names a live file object and a live inode |
| `Descriptors.FileOpenedMoves` | kernel/fs/files.c:237-289 | opening raises at most one file object's count and its inode's, by exactly what the result says |
| `Descriptors.FileFreedMoves` | kernel/fs/files.c:30-51 | giving a file object back lowers it and its inode by one each and nothing else |
| `Descriptors.FileIncrementedMoves` | kernel/fs/files.c:25-28 | counting a file object raises it and its inode by one each and nothing else |
| `Descriptors.LookedUpMoves` | kernel/fs/inodes.c:135-210 | a lookup leaves exactly one reference on the entry it returns, and none when the file is not found, although the temporary entry may be found first |
| `Descriptors.IncrementedAllMoves` | kernel/processes/vfork.c:37-43 | counting all descriptors of a block raises each file object once per slot naming it |
| `Descriptors.FreedAllMoves` | kernel/processes/process.c:238-241 | closing all descriptors lowers each file object once per slot naming it |
| `DescriptorEffects.LookupAnswers` | kernel/fs/inodes.c:107-210 | a lookup that finds a file answers the first entry with that superblock and number, and the entry is in use; it fails exactly when no entry is free |
| `DescriptorEffects.CreationAnswers` | kernel/fs/files.c:146-220 | a created file sits in an entry of its own with the number and superblock it was given |
| `DescriptorEffects.OpenAnswers` | kernel/fs/files.c:226-289 | opening takes the first free file object, on an entry that holds the file asked for, and changes no other |
| `DescriptorEffects.OpenSucceedsIff` | kernel/fs/files.c:226-289 | an existing file is opened exactly when an entry and a file object are free, a missing one not without O_CREAT |
| `DescriptorEffects.FreeLowers` | kernel/fs/files.c:30-51 | one reference less on the object and on its entry, which keeps its identity while it is in use; nothing else changes |
| `DescriptorEffects.CountRaises` | kernel/fs/files.c:25-28 | one reference more on both, nothing else |
| `DescriptorEffects.LastReferenceForgets` | kernel/fs/inodes.c:212-244 | an entry that loses its last reference loses its superblock and number too |
| `FileTables.FileTable.InodeAllocate` | kernel/fs/inodes.c:86-105 | takes the first entry whose count is 0 |
| `FileTables.FileTable.FileSpecial` | kernel/fs/files.c:622-661 | a file object and an entry of its own, counted once each |
| `FileTables.FileTable.InodeFindExisting` | kernel/fs/inodes.c:107-127 | finds the first entry with this superblock and number |
| `FileTables.FileTable.InodeLookupAndAlloc` | kernel/fs/inodes.c:135-210 | the in-place table change of a lookup, for every answer of the filesystem |
| `FileTables.FileTable.InodeFree` | kernel/fs/inodes.c:212-244 | one reference less, and a poisoned entry at zero; -1 when it is free already |
| `FileTables.FileTable.FilesIncrementCount` | kernel/fs/files.c:25-28 | one more reference in both layers |
| `FileTables.FileTable.FileObjectFree` | kernel/fs/files.c:30-51 | one reference less in both layers |
| `FileTables.FileTable.FileObjectAllocate` | kernel/fs/files.c:53-83 | the first free file object, or -ENFILE |
| `FileTables.FileTable.CreateFileObject` | kernel/fs/files.c:146-220 | the table change of creating a file, error paths included |
| `FileTables.FileTable.OpenFileObject` | kernel/fs/files.c:226-289 | lookup, creation on demand and allocation in order, for every outcome |
| `KernelCalls.Kernel.MapFdToFile` | kernel/fs/files.c:86-113 | the file object behind a descriptor, or the error |
| `KernelEffects.MappedIs` | kernel/fs/files.c:86-113 | -23 for no descriptor or a free one, -9 for an object that is not in use, else the object, in that order |
| `KernelEffects.OpenEffect` | kernel/fs/files.c:296-321 | the first free descriptor, and no other, then names a file object that was free and holds the file asked for |
| `KernelEffects.CloseEffect` | kernel/fs/files.c:119-139 | the descriptor is free afterwards, its object and that one's entry have one reference less, and nothing else changes |
| `KernelEffects.DupEffect` | kernel/fs/files.c:786-821 | newfd names oldfd's object, which has one reference more, what newfd named has one less; or newfd still names it when oldfd is of no use |
| `KernelEffects.AllocatedEffect` | kernel/memory/memory.c:158-222 | the first free run of as many whole chunks as the size needs, from 16 MB on and below the limit, becomes marked; nothing when there is none |
| `KernelEffects.LoadEffect` | kernel/processes/exec.c:72-224 | stack and program are installed with their own addresses and sizes, nothing else of any block changes, and every file object is counted as before |
| `KernelEffects.EndEffect` | kernel/processes/exit.c:14-32 | the exit value is kept, those on the queue become ready, nobody else changes |
| `KernelEffects.ChildNamed` | kernel/processes/process.c:64-82 | waitpid(-1) means the first other block on the list whose parent is the caller, and answers -10 exactly when there is none |
| `KernelEffects.PidNamed` | kernel/processes/waitpid.c:40-62 | any other pid means the first block with it, and other negative ones are answered with -19 |
| `KernelEffects.SleepEffect` | kernel/processes/waitqueue.c:23-61 | the caller is asleep, at the end of the queue if it was not on it, waiting for that block |
| `KernelEffects.WaitEffect` | kernel/processes/waitpid.c:62-86 | a child that has exited is off the list and its memory unmarked, for one that has not the caller sleeps, unless it asked not to |
| `KernelEffects.TurnEffect` | kernel/processes/waitpid.c:73-80 | the same for a waiter that goes on |
| `KernelEffects.ScheduleEffect` | kernel/processes/scheduler.c:19-120 | the next ready process going round the list behind its head, and the head exactly when none is ready |
| `KernelStructure.ForkedChanges` | kernel/processes/vfork.c:16-70 | the child is the parent but for pid, links, parent, stack, text and status; the parent sleeps; other blocks keep all but a link |
| `KernelStructure.DestroyedChanges` | kernel/processes/process.c:224-256 | the block is invalid and off the list, other blocks keep all but links |
| `KernelCalls.Kernel.OpenSyscall` | kernel/fs/files.c:296-321 | on tables in place, the open step; a result that is no error was the first free descriptor and now names the file asked for |
| `KernelCalls.Kernel.CloseSyscall` | kernel/fs/files.c:119-139 | the close step; 0 exactly when the descriptor was open, which it is not afterwards, else -23 or -9 |
| `KernelCalls.Kernel.Dup2Syscall` | kernel/fs/files.c:786-821 | the dup2 step and its answer, also where it returns early with newfd given up; on 0 newfd names what oldfd named |
| `KernelCalls.Kernel.ProcessDestroy` | kernel/processes/process.c:224-256 | the destruction step: list, descriptors, memory |
| `KernelCalls.Kernel.Vfork` | kernel/processes/vfork.c:16-96 | the vfork step and the pid returned, in every well-formed world |
| `KernelCalls.Kernel.constructor` | kernel/processes/userspace.c:40-61 | sets up the allocator, creates the idle task with its stack and init with its three special files through process_create, memory_allocate and inode_allocate, and arrives in the boot state, for every amount of memory |
| `KernelCalls.Kernel.CreateIdleTask` | kernel/processes/idle_task.c:70-94 | the idle task in the first block, with the first chunk for users as its stack if there is one |
| `KernelCalls.Kernel.StartUserspace` | kernel/processes/userspace.c:40-61 | init in the second block, its own parent, with three counted files |
| `KernelBoot.BootFromIsBoot` | kernel/processes/idle_task.c:82-83 | with memory for that stack this is the boot state that runs start from |
| `KernelCalls.Kernel.Execve` | kernel/processes/exec.c:25-245 | allocation, release on failure and installation of stack and program with their sizes; the argument count exactly when it succeeds, for sizes from 0 |
| `KernelCalls.Kernel.ExecveSyscall` | kernel/syscalls/syscalls.c:125-134 | the handler's waking of the parent, whatever execve returned |
| `KernelCalls.Kernel.Exit` | kernel/processes/exit.c:14-32 | the exit step; the block has exited with this value |
| `KernelCalls.Kernel.Waitpid` | kernel/processes/waitpid.c:30-86 | lookup, errors, WNOHANG and the blocking loop up to the switch; the child's exit value, and ECHILD exactly without children |
| `KernelCalls.Kernel.WaitTurn` | kernel/processes/waitpid.c:73-80 | one turn of the blocking loop, also after a wakeup, and the exit value it leaves |
| `Chunks.FirstFit` | kernel/memory/memory.c:117-138 | the least chunk in the region whose run is free and ends before the bound, and none exactly when there is none |
| `ChunkMaps.ChunkMap.FindFree` | kernel/memory/memory.c:117-138 | the loop over the packed map is that first fit, or -ENOMEM |
| `ChunkMaps.ChunkMap.MarkUsed` | kernel/memory/memory.c:28-38 | sets one bit: exactly one chunk more is used |
| `ChunkMaps.ChunkMap.MarkFree` | kernel/memory/memory.c:41-51 | clears one bit: exactly one chunk less is used |
| `ChunkMaps.ChunkMap.TestUsed` | kernel/memory/memory.c:54-62 | reads the bit of a chunk |
| `ChunkMaps.ChunkMap.TotalFree` | kernel/memory/memory.c:141-151 | 4096 bytes for every chunk below the limit that is not used |
| `ChunkMaps.FreePlusUsed` | kernel/memory/memory.c:141-151 | free and used chunks below a limit add up to the limit |
| `ChunkMaps.ChunkMap.Allocate` | kernel/memory/memory.c:158-222 | marks exactly the chunks of the first fit, or nothing |
| `ChunkMaps.ChunkMap.Free` | kernel/memory/memory.c:224-262 | unmarks exactly the chunks from its place on, as many as the unsigned arithmetic on the size gives, also for size 0 |
| `ChunkMaps.ChunkMap.PerformAll` | kernel/memory/memory.c:141-262 | any sequence of allocations and matching frees on the packed map leaves marked exactly the reserved chunks and the disjoint live blocks, and memory_total_free then reports 4096 bytes for each of the others |
| `ChunkMaps.ChunkMap.Init` | kernel/memory/memory.c:65-112 | the limit, and the reserved chunks marked; what is left as it was on each error |
| `AllocatorRuns.RunKeepsLedger` | kernel/memory/memory.c:158-262 | over every sequence of allocations and matching frees the marked chunks are the reserved ones and the disjoint union of the live blocks, of which one of size 0 has one chunk |
| `AllocatorRuns.UsedCount` | kernel/memory/memory.c:141-151 | and their number is the sum of the sizes |
| `PageTables.SetupPagetable` | kernel/memory/armv7-mmu.c:210-272 | after all five passes each entry is the descriptor that the later pass wins |
| `PageTables.BlocksAgree` | kernel/memory/memory.c:183-196 | every byte of every kernel block is in a privileged-only section, of every user block in an any-access one, identity mapped |
| `PageTables.IdentityMapped` | kernel/memory/armv7-mmu.c:228-264 | all 4 GB map to themselves |
| `PageTables.Permissions` | kernel/memory/armv7-mmu.c:194-203 | below 16 MB only privileged access, from there to 1 GB any access |
| `PageTables.SectionAttributes` | kernel/memory/armv7-mmu.c:194-210 | every entry is a shared one megabyte section, cached exactly for memory, and privileged above 1 GB |
| `DeviceTrees.Tree.FindNodeProp` | kernel/boot/device_tree.c:432-457 | on every well-formed structure block the search ends with the word index of the first matching property in document order, and -ENOENT exactly when there is none; -ENODEV without a tree, -1 for an empty block |
| `DeviceTrees.Tree.ParseNode` | kernel/boot/device_tree.c:333-386 | one node: the first match inside it, or exactly its words consumed; -1 when no node starts there |
| `DeviceTrees.Tree.ParseItems` | kernel/boot/device_tree.c:357-386 | the properties and nodes inside a node, up to its end |
| `DeviceTrees.Tree.ParseProp` | kernel/boot/device_tree.c:146-221 | one property: its index when node and name match, else exactly its words consumed |
| `DeviceTrees.Tree.PropInt` | kernel/boot/device_tree.c:223-255 | the first value cell in the processor's byte order |
| `DeviceTrees.FirstWanted` | kernel/boot/device_tree.c:432-457 | the first wanted entry and no earlier one; 0 exactly when none is wanted |
| `DeviceTrees.FirstWantedIs` | kernel/boot/device_tree.c:168-173 | the answer is the first property with the name asked for, in a node with the name asked for if one was |
| `DeviceTrees.EncodedExample` | kernel/boot/device_tree.c:333-386 | the cells of a tree, written out |
| `DeviceTrees.EntriesExample` | kernel/boot/device_tree.c:333-386 | each property carries the name of the node it stands in |
| `DeviceTrees.SwapExample` | kernel/boot/device_tree.c:71-81 | the byte order of cells in memory |
| `DeviceTrees.FirstOf` | kernel/boot/device_tree.c:359-384 | the depth-first search takes the answer of the first item if it has one, and otherwise that of the rest |
| `DeviceTrees.ItemsAreProperties` | kernel/boot/device_tree.c:166-186 | every index the search can return holds a property cell whose name offset leads to that name |
| `DeviceTrees.ItemsWithin` | kernel/boot/device_tree.c:432-457 | every such index lies among the words searched |
| `DeviceTrees.NameReadsBack` | kernel/boot/device_tree.c:346-356 | an encoded node name is read back from memory, and its last word is the first whose swapped low byte is NUL |
| `DeviceTrees.AgreeIsEquality` | kernel/boot/device_tree.c:168-173 | the comparison bounded by 128 is equality when one text is shorter than that |
| `DeviceTrees.StoredIsAt` | kernel/boot/device_tree.c:71-81 | every block of cells, byte-swapped into memory, is read back by the search as those cells |
| `DeviceTrees.BigToLittleInvolutive` | kernel/boot/device_tree.c:71-81 | swapping twice is the identity |
| `Md5.Md5Sum` | userspace/md5sum.c:141-330 | for every message and every split into updates the result is the digest of RFC 1321, sections 3.1 to 3.5 |
| `Md5Vectors.EmptyDigest` | userspace/md5sum.c:141-330 | the digest of the empty message is that of appendix A.5 |
| `Md5Vectors.AbcDigest` | userspace/md5sum.c:141-330 | the digest of abc is that of appendix A.5 |
| `Md5.ChainAppend` | userspace/md5sum.c:282-287 | whole blocks are processed one after the other |
| `Md5.OneBlock` | userspace/md5sum.c:282-287 | and a single one is compressed once |
| `Md5.Context.Update` | userspace/md5sum.c:259-292 | the context has then taken in the message followed by the data: counter, chaining value and left-over bytes |
| `Md5.Context.Final` | userspace/md5sum.c:299-330 | the digest of everything taken in, and a cleared context |
| `Md5.Context.Body` | userspace/md5sum.c:141-245 | the unrolled steps over whole blocks are the table-driven operations of section 3.4 |
| `Md5.Context.Init` | userspace/md5sum.c:248-257 | the context of the empty message |
| `Md5.Context.Count` | userspace/md5sum.c:264-267 | the 29-bit low part and its carry count the bytes modulo 2^61 |
| `Md5.CounterAdds` | userspace/md5sum.c:264-267 | the carry shows in the low part being smaller than before, for every size up to 2^32 - 1 |
| `Md5.CounterBits` | userspace/md5sum.c:318-320 | the two counter words, the low one shifted by three, are the bit length modulo 2^64 |
| `Md5.FAgrees` | userspace/md5sum.c:97-97 | the rewritten F is that of section 3.4 |
| `Md5.GAgrees` | userspace/md5sum.c:98-98 | the rewritten G is that of section 3.4 |
| `Md5.HAgrees` | userspace/md5sum.c:99-100 | both groupings of H are that of section 3.4 |
| `Md5.StepIsOperation` | userspace/md5sum.c:106-109 | a step is the operation of section 3.4 with its word, sine constant and rotation |
| `Md5.Absorb` | userspace/md5sum.c:269-291 | taking in more data is processing the left-over bytes and the data together |
| `Md5.PaddingFits` | userspace/md5sum.c:303-316 | the padding fits the unfinished block, or needs one more, exactly as section 3.1 asks |
| `Highlighting.ScanRow` | userspace/nano.c:259-376 | colouring a row in place is the specified scan, and every write stays inside the row |
| `Highlighting.Next` | userspace/nano.c:296-374 | one turn of the scan advances, stays inside the row and never recolours what is behind it |
| `Highlighting.InsideStays` | userspace/nano.c:305-316 | a row that starts inside a comment and has no closing mark is comment throughout and leaves the comment open |
| `Highlighting.OutsideStays` | userspace/nano.c:317-322 | a row that starts outside and has no opening mark ends outside, with no part of a comment of several lines in it |
| `HighlightMeaning.StringScanned` | userspace/nano.c:325-345 | a quote outside strings and comments, where no comment begins, colours a string to its closing quote, and the scan goes on outside behind it; without one the rest of the row is a string and the row ends outside comments |
| `HighlightMeaning.ClosingPlain` | userspace/nano.c:325-334 | without a backslash the closing quote is the next of its kind |
| `HighlightMeaning.RowCommentScanned` | userspace/nano.c:298-303 | a row comment colours the rest of the row |
| `HighlightMeaning.CommentScanned` | userspace/nano.c:305-322 | an opening mark colours a comment up to and with the first closing mark |
| `HighlightMeaning.UnclosedScanned` | userspace/nano.c:305-322 | without a closing mark the comment goes on into the next row |
| `HighlightMeaning.NumberScanned` | userspace/nano.c:347-354 | a digit behind a separator, with the digits and dots that follow, is a number |
| `HighlightMeaning.KeywordScanned` | userspace/nano.c:356-372 | a keyword between separators has the first class, or the second exactly when its entry ends in a bar |
| `HighlightMeaning.PlainScanned` | userspace/nano.c:374-375 | anything else stays plain, and a word can begin behind it exactly when it is a separator |
| `HighlightMeaning.SeparatorsAre` | userspace/nano.c:247-257 | which characters separate words |
| `HighlightMeaning.RowShows` | userspace/nano.c:259-382 | what is behind a place of the scan is what the row shows in the end |
| `HighlightMeaning.StringAndComment` | userspace/nano.c:259-382 | the classes of a row with a string and an open comment, and its flag |
| `HighlightMeaning.KeywordAndNumber` | userspace/nano.c:259-382 | the classes of a row with a keyword and a number |
| `Nano.Editor.UpdateSyntax` | userspace/nano.c:377-382 | the row ends up right, no later row that was right becomes wrong although propagation stops at the first unchanged flag, and earlier rows do not change; the rows are those that the recursion specifies |
| `RowColors.RecoloredIff` | userspace/nano.c:377-382 | when all rows but one are right, colouring that one leaves all right exactly when nothing lies at the bound of the propagation, or the flag there came out as it was, or the row there looks the same inside and outside a comment |
| `RowColors.RecoloredReaches` | userspace/nano.c:377-382 | when a later row is wrong too, exactly when the flags change all the way to it |
| `RowColors.ColoredIsFullPass` | userspace/nano.c:259-382 | every row right with respect to the one before it is equivalent to all rows being as a pass from the top makes them |
| `Nano.Editor.SelectSyntaxHighlight` | userspace/nano.c:400-432 | the syntax chosen by the file's name makes every row right, whatever the flags were; without a name or a match the rows stay as they are |
| `Highlighting.CFiles` | userspace/nano.c:74-102 | a name gets the C syntax exactly when its last extension begins with c or h |
| `Highlighting.EitherWayOpens` | userspace/nano.c:305-322 | only a row with an opening mark of its own can look the same inside and outside a comment |
| `Nano.Editor.RowInsertChar` | userspace/nano.c:513-533 | the line with the character put in, at its end when the place is outside; right colouring stays right |
| `Nano.Editor.RowAppendString` | userspace/nano.c:535-543 | the line with the text appended; right colouring stays right |
| `Nano.Editor.RowDeleteChar` | userspace/nano.c:545-552 | the line without the character, nothing outside the row; right colouring stays right |
| `Nano.Editor.UpdateRow` | userspace/nano.c:434-459 | the row rendered anew and coloured |
| `Nano.Editor.InsertRow` | userspace/nano.c:461-489 | a new line at this place, later rows renumbered; right colouring stays right exactly when the rows below end with the flag they had, as far as the old number of rows lets the colouring go, or look the same either way |
| `Nano.Editor.DeleteRow` | userspace/nano.c:497-511 | the line removed, later rows renumbered; right colouring stays right exactly when the line kept the flag, was the last, or the next one looks the same either way, and every other row stays right in any case |
| `Nano.Editor.InsertChar` | userspace/nano.c:554-561 | typing, lines and cursor, also on the empty place after the last line; right colouring stays right |
| `Nano.Editor.InsertNewline` | userspace/nano.c:563-581 | a newline, lines and cursor; at the start of a line right colouring stays right, elsewhere exactly when the insertion of the tail keeps it or colouring the head gets as far as the row left wrong |
| `RowColors.SplitIff` | userspace/nano.c:568-578 | that condition, over rows: the tail is inserted against the flag of the whole line |
| `RowColors.SplitBreaks` | userspace/nano.c:568-578 | splitting ///* x after its two slashes, with one row below, leaves that row wrong |
| `Nano.Editor.DeleteChar` | userspace/nano.c:583-606 | deletion, lines and cursor; within a line right colouring stays right, and joining two lines keeps it exactly when the removed line would keep the flag of the joined one, was the last, or the next one looks the same either way |
| `RowColors.JoinIff` | userspace/nano.c:596-605 | that condition, over rows |
| `RowColors.JoinBreaks` | userspace/nano.c:596-605 | joining // and /* x, with one row below, leaves that row wrong |
| `Nano.Editor.RowsToString` | userspace/nano.c:608-629 | the joined text, in a buffer of exactly its length |
| `EditorText.CharacterRefines` | userspace/nano.c:554-561 | typing inserts the character at the cursor's offset in the joined text; after the last line it also brings a newline |
| `EditorText.NewlineRefines` | userspace/nano.c:563-581 | a newline inserts a newline at that offset, everywhere |
| `EditorText.DeletionRefines` | userspace/nano.c:583-606 | deletion removes the character before that offset, joining lines if it is a newline |
| `EditorText.DeleteUndoesCharacter` | userspace/nano.c:583-606 | deletion undoes typing, lines and cursor, if and only if the cursor was on a line |
| `EditorText.DeleteUndoesNewline` | userspace/nano.c:583-606 | deletion undoes a newline, lines and cursor, if and only if the cursor was on a line |
| `EditorText.RenderRow` | userspace/nano.c:434-457 | the rendered row, inside the buffer sized beforehand |
| `EditorText.RenderFits` | userspace/nano.c:444-445 | the rendered row is at most seven characters longer for every tab |
| `EditorText.TabReachesStop` | userspace/nano.c:447-450 | a tab fills up to the next multiple of eight and is at least one blank |
| `EditorText.RenderedAt` | userspace/nano.c:446-456 | each character stands where the rendering of the text before it ends, and a tab is blanks up to the next multiple of eight |
| `EditorText.CxToRx` | userspace/nano.c:220-231 | the column of a character is the rendered length of what is before it |
| `EditorText.RenderPrefix` | userspace/nano.c:220-231 | rendering a prefix is a prefix of the rendering |
| `BfltLoader.ConvertAndLoad` | elf2bflt/elf2bflt.c:568-685 | for distinct aligned relocations in data sections the loaded image holds original - text offset + load address at each relocated word, and the original everywhere else in those and the copied sections |
| `Relocation.RelocationComposes` | kernel/processes/bflt_loader.c:109-125 | without distinctness: the load address is added once for every time a word is listed |
| `Relocation.CopiedUnchanged` | elf2bflt/elf2bflt.c:586-622 | text and read-only data arrive byte for byte |
| `Relocation.AddBaseAt` | kernel/processes/bflt_loader.c:117-119 | adding in place, word by word, affects a word exactly as often as it is listed |
| `Relocation.DistinctCount` | elf2bflt/elf2bflt.c:435-450 | a word listed in distinct relocations is listed once |
| `Relocation.Convert` | elf2bflt/elf2bflt.c:514-685 | the file has the header, the patched sections and the table that the loader relies on |
| `Relocation.WriteData` | elf2bflt/elf2bflt.c:623-655 | a data section is written word by word with the text offset taken off every relocated word |
| `Relocation.IsRelocated` | elf2bflt/elf2bflt.c:77-85 | whether an address is in the relocation table |
| `Relocation.WriteTable` | elf2bflt/elf2bflt.c:668-681 | the table, moved by the text offset, in network order |
| `Relocation.WriteHeader` | elf2bflt/elf2bflt.c:514-564 | the header words in network order |
| `Relocation.HeaderReadsBack` | kernel/processes/bflt_loader.c:43-71 | each header field is read back where the loader looks for it |
| `Relocation.ByteOrders` | kernel/processes/bflt_loader.c:43-71 | which byte of a word comes first in memory, and which in the file |
| `Relocation.HeaderExample` | elf2bflt/elf2bflt.c:514-564 | the header of a program, byte by byte |
| `BfltLoader.BfltLoad` | kernel/processes/bflt_loader.c:25-76 | the sizes and places of any header, and their differences without wrapping when they are in order |
| `BfltLoader.BfltReloc` | kernel/processes/bflt_loader.c:79-128 | for any file, the in-place loop is the addition of the load address at each place that its table lists |
| `BfltLoader.LoadBinary` | kernel/processes/exec.c:72-94 | any file whose contents and places stay inside the memory it asks for is read into zeroed memory and relocated there |
| `BfltLoader.ConvertedLoads` | elf2bflt/elf2bflt.c:514-685 | a file of the converter is such a file, and its memory is that of the relocation theorems |
| `Dmesg.Log.Append` | kernel/lib/dmesg.c:12-50 | over every run the ring holds the last bytes logged and the marks delimit the readable part; a text of 4096 bytes or more changes nothing |
| `Dmesg.Log.Advance` | kernel/lib/dmesg.c:23-47 | the marks move as the readable part does, through every case of wrapping |
| `Dmesg.Log.Syscall` | kernel/lib/dmesg.c:52-85 | READ_ALL returns exactly the last bytes of everything logged, as many as the run leaves readable |
| `Dmesg.ReadableBounds` | kernel/lib/dmesg.c:12-50 | that is the whole log while it has at most 4096 bytes |
| `Dmesg.EmptyExactly` | kernel/lib/dmesg.c:43-47 | after an overflow nothing is readable exactly when the readable part came to be the whole buffer |
| `Dmesg.ReadsEmpty` | kernel/lib/dmesg.c:36-40 | appends of 4095, 2 and 1 bytes leave a log that reads as empty |
| `Portamento.Converges` | userspace/pt3_lib.c:209-226 | a slide reaches its note after exactly max(1, ceil(distance / step)) * delay frames, not before, and then rests with sliding and count at zero |
| `Portamento.SetUpIsReady` | userspace/pt3_lib.c:554-600 | effect 2 sets up such a slide to the new note unless the step is zero or the values leave sixteen bits |
| `Portamento.SetUpGoal` | userspace/pt3_lib.c:554-600 | the goal is the difference of the two notes' periods, the step has the size of the parameter word and points at the goal from where the slide starts |
| `Portamento.NoStep` | userspace/pt3_lib.c:215-224 | without a step it arrives after one period when the goal is not above it, and otherwise never |
| `Portamento.NeverStarts` | userspace/pt3_lib.c:210-210 | a delay byte of 0 or above 127 never starts the slide |
| `Portamento.Channel.CalculateNote` | userspace/pt3_lib.c:209-226 | the sliding part of a frame on the channel's fields |
| `Portamento.Channel.DecodePortamento` | userspace/pt3_lib.c:554-600 | effect 2 on the channel's fields |
| `Calendar.PrintDate` | userspace/ls.c:44-116 | a valid Gregorian date and time whose seconds since 1970 are the argument, and the only one |
| `Calendar.FindMonth` | userspace/ls.c:78-91 | the month loop never goes past December |
| `Calendar.SecondsInjective` | userspace/ls.c:44-116 | no two dates and times are the same number of seconds |
| `Calendar.DaysCount` | userspace/ls.c:44-116 | every day of the Gregorian calendar adds 86400 to the count |
| `Calendar.CountStarts` | userspace/ls.c:44-116 | which starts at 0 with 1970; within a day hours, minutes and seconds count 3600, 60 and 1 |
| `Calendar.KnownDates` | userspace/ls.c:44-116 | two known dates around leap days |

## Left out

- KernelStructure.NoLostWakeup: the sleep queues of console and timer share the link field of the block; only that of waitpid is modelled
- KernelCalls.Kernel.Waitpid: a pid that does not exist is excluded, the C code then follows a NULL pointer
- KernelCalls.Kernel.Dup2Syscall: a newfd outside the table is excluded, the C code does not check it
- KernelCalls.Kernel.Execve: the arguments, the copied image and the register state are not modelled; the sizes are those that the header gives
- KernelCalls.Kernel.constructor: the messages and hardware setup of the boot, the mounts, and how the shell is found and loaded into init
- ChunkMaps.ChunkMap.Free: a free that runs past the map writes other memory in C; the model keeps to the map
- Descriptors.LookedUpMoves: an identity may have several entries, since the search can find the temporary entry first; only counts per entry are claimed
- DeviceTrees.Tree.ParseNode: an unexpected cell is skipped by the C code with a message; in a well-formed block there is none, so that branch does not appear
- DeviceTrees.Tree.FindNodeProp: the callers compare the result with 0 as an unsigned word, so they never see its errors; they are not part of the model
- Relocation.Convert: reading the section headers and the layout that follows from them (elf2bflt.c:170-550); sections, relocations and places are given, with file offset and address equal
- BfltLoader.BfltLoad: a file shorter than its header
- BfltLoader.BfltReloc: a table outside the file or a place outside the image
- BfltLoader.LoadBinary: a file whose relocations or contents leave the memory it asks for; the C code does not check
- Portamento.Channel.CalculateNote: the sample, ornament, amplitude, noise and envelope parts of a frame
- Calendar.PrintDate: negative times and the printed form
- The clock, time accounting, file offsets, flags, hard links, directories and the data of files
- getdents, read, write, seek, and every other system call that does not change the counts
- The fixed-width wrap of pids and reference counts
- inode_allocate's callers outside the file layer, mount and superblock code, and the filesystems
- Context switches, caches, the MMU registers, interrupts, locks and everything else in assembly
- The editor's screen, keyboard and file handling, and the conversion from column to character, where the C code uses a bitwise and for a remainder
- The shell, the assembler, the image tools, fonts, demos and drivers
