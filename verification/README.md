# NexOS: a model and its proofs

NexOS is a small RISC-V kernel in the style of xv6. This project models its
shared-state protocols and heap structures in Dafny and proves what they are for.

`dafny verify dfyconfig.toml` checks the whole project.

## What is modelled

**Page tables over the page allocator** (`Sv39`, `PageState`, `PageSteps`,
`PageCount`, `PageTable`, `UserMemory`, `UserCopy`, `UserString`, `Teardown`,
`ProcMemory`, `Translation`). `PageTable.Machine` is the physical memory with the intrusive
free list; the three-level trees live in its pages. `PageState.Good` says that
every managed page is free, or held by the kernel, or one node of one tree, or
one user leaf, and that each tree means a finite map from pages to frames and
flags. Every operation of `vm.c` keeps it and is specified by its effect on that
map and on who owns which page. Each is refused exactly when the free list is too
short for the frames and the missing tables (`PageCount`). The Sv39 walk of the
hardware (section 4.3.2 of the RISC-V Privileged Architecture, 20211203) finds
exactly that map.

**The scheduler** (`SchedState`, `SchedTyping`, `SchedInv`, `SchedSteps`,
`SchedSwitch`, `SchedRuns`, `SchedMoves`, `SchedWake`). A machine of any number of
harts and process slots, one memory operation a step: the test-and-set, the store to `lk->cpu`, `noff`,
`intena` and the interrupt-enable bit are separate steps, interleaved with those
of other harts and with traps. A context is the list of operations it has still
to do, so `swtch` exchanges lists. `SchedTyping.Ok` says what a hart must own for
the rest of its list to be safe; it carries a lock across `swtch`.

**fork, exit, wait, kill** (`Lifecycle`, `LifecycleInv`, `LifecycleSteps`,
`LifecycleRuns`). A step machine over process slots and `wait_lock`, with the
loops of `wait`, of the re-parenting and of `wakeup` taken slot by slot.

**Sleep locks** (`Sleeplock`) and **pipes** (`Pipe`): one call is what a thread
does between taking the inner spinlock and giving it up, by any number of threads.

**The file system** (`Layout`, `FsState`, `FsBytes`, `FsTrunc`, `FsDisk`,
`FileSystem`, `FileIO`, `Directory`, `Paths`, `PathTree`, `Namex`, `TreeDisk`,
`CwdDisk`, `Links`, `Mkfs`, `Image`). The class `FileSystem.FileSystem` has the
disk's blocks and the inode table as its fields and reads and writes the 512-byte
blocks themselves. `FsState.Good` says who owns each block; `FsState.Contents` is
what an inode means, a byte sequence. Above it are directories as finite maps,
paths, link counts, and the image builder. `Paths` works on a tree of directory
entries, and `PathTree` shows that making and removing names keeps that tree in
shape. `Namex` and `CwdDisk` are namei and getcwd_path over the disk, which find
what `Paths` finds in the tree of its contents, and `TreeDisk` shows that the bytes
written by link, mkdir and unlink change that tree as `PathTree` does. `Image` puts
these together: the kernel reads back every file of an image by its path.

**The buffer cache** (`Bcache`, `BcacheUse`) and **the virtio queue** (`Virtio`,
`VirtioDisk`): the linked list of thirty buffers over a flat disk, and the driver
beside a device that follows sections 2.6 and 5.2 of VIRTIO 1.1.

**Reference counts** (`RefCount`): files, inodes and pipe pages over the whole
machine.

**FAT16 packing** (`Fat16`) and **the grep matcher** (`Grep`). `Common` and
`Wrappers` hold the notions that several of these share.

## How to read it

A class is a structure that the source updates in place; its methods are the
source's functions and say what they do to a specification value (`St`, `World`,
`Fs`, `Book`), about which the lemmas then speak. Fields such as `stamp`,
`fates`, `ins` and `outs` record the past: no step depends on them. Where the
source panics, either the panic is shown unreachable (an `assert false`, a
precondition that every caller meets, or `Step != Panic`) or it is an answer of
its own. What the environment decides (an allocation that fails, a page that
cannot be written, the order in which the device works) is a parameter.

Facts about the code that differ from what one might expect, with the exact
condition:

- `getcwd_path` cuts trailing spaces off the name field (`kernel/fs/fs.c:641-683`), so its
  answer does not always lead back. `Paths.RoundTripIff`: for any directory it does
  if and only if no name field on the way up to the root has a space in its last
  place; `CwdDisk.ThereAndBack` says so of the disk. `PathTree.CutExample` is a tree with a directory that it misses.
- A writer killed in the middle of `pipewrite` wakes no reader
  (`kernel/core/pipe.c:88-91`), so a reader can be left asleep on a pipe that has
  data. `Pipe.Calm` says that none is; every call but `Write` keeps it, and `Write`
  loses it exactly when it quits (`Pipe.Quits`) after a test that let a byte in,
  while a reader sleeps. `Pipe.KilledWriter` comes to such a state by calls. A
  `piperead` whose `copyout` fails has consumed one byte that it does not deliver;
  `Pipe.PipeObj.Read` says when.
- `write_file_into_image` clears what the directory slot it takes named before
  (`tools/fat16_pack.py:200-203`), which a deleted entry still does.
  `Fat16.Image.WriteFile`: every other file keeps its chain if and only if
  following the table from that cluster comes to none of theirs. `Fat16.StaleSlot`
  is an image where it does.
- The error exit of `proc_pagetable` after its second `mappages`
  (`kernel/core/proc.c:305-310`) is not reached: the trapframe shares the tables of
  the trampoline (`ProcMemory.ProcPagetable`).
- `create` with the last name "." or ".." never makes an entry, and `link` to such a
  name is refused (`Links.Tree.Create`, `Links.Tree.Link`).
- A failed `uvmalloc` restores the leaf map, but interior nodes it made stay with
  the table (`UserMemory.UvmAlloc`); teardown returns them.
- `free_chain` (`tools/fat16_pack.py:157-168`) cannot report a loop: it clears each
  entry before it follows it, so it stops at the first entry it meets twice.

## Model

| member | source | states |
|---|---|---|
| Sv39.PathNamesPage | kernel/include/riscv.h:196-219 | index paths and page addresses below MAXVA correspond one to one |
| Sv39.PageNamesPath | kernel/include/riscv.h:196-219 | and back: every index path is that of exactly one page |
| Sv39.MacrosReadEntry | kernel/include/riscv.h:196-219 | reading a stored entry word with the macros recovers frame and flags; the valid bit is set exactly for entries |
| Translation.HwWalkIsMap | kernel/core/vm.c:67-90 | the Sv39 walk of the hardware, over the pages in memory, finds exactly what the leaf map says and faults everywhere else |
| Translation.Levels | kernel/core/vm.c:67-90 | the words in each node page are exactly the rows of the three maps |
| PageTable.Machine.constructor | kernel/core/kalloc.c:44-53 | kinit: exactly the managed pages, all free, on a well-formed list |
| PageTable.Machine.Kalloc | kernel/core/kalloc.c:55-72 | the head of the free list becomes held; null exactly when the list is empty; nothing else changes |
| PageTable.Machine.Kfree | kernel/core/kalloc.c:24-42 | a page not free becomes the head of the list; nothing else changes |
| PageTable.Machine.Walk | kernel/core/vm.c:67-90 | the slot of the page, in its own low node; nothing changes without alloc; with it a free page becomes each missing node and no other, and it fails only when the list is empty |
| PageTable.Machine.MapPages | kernel/core/vm.c:117-146 | exactly the pages asked for (on failure the first `done` of them) are entered; every other leaf, page and space stays; a page of the free list goes for each table that was missing, and it fails exactly when they run out |
| PageTable.MapRangeKeys | kernel/core/vm.c:117-146 | mapping a range gives the map exactly the pages of the range besides those it had |
| PageTable.MapRangeAt | kernel/core/vm.c:117-146 | page x of the range leads to frame x after the first, with the flags |
| PageTable.MapRangeKeeps | kernel/core/vm.c:117-146 | a page outside the range leads where it led |
| PageTable.Machine.UvmUnmap | kernel/core/vm.c:162-181 | exactly the pages asked for leave the map; with do_free exactly their frames become free |
| PageSteps.WithLeafGood | kernel/core/vm.c:117-146 | entering a leaf keeps the ownership invariant |
| PageSteps.WithLowGood | kernel/core/vm.c:67-90 | linking in a new low node keeps it and changes no leaf |
| PageSteps.WithMidGood | kernel/core/vm.c:67-90 | linking in a new middle node keeps it and changes no leaf |
| PageCount.SpentAll | kernel/core/vm.c:67-146 | with every table in place exactly the frames and the missing tables have left the free list |
| PageCount.SpentFails | kernel/core/vm.c:185-205 | too few pages for one page more means too few for all the pages asked for |
| UserMemory.UvmAlloc | kernel/core/vm.c:185-205 | it succeeds if and only if there are as many free pages as frames and missing tables; then exactly the pages between the sizes are gained, user and readable, every byte of each 0; otherwise the leaf map is as before |
| UserMemory.UvmDealloc | kernel/core/vm.c:209-218 | exactly the pages between the sizes are unmapped and freed |
| UserMemory.UvmCopy | kernel/core/vm.c:248-276 | the child gains fresh pages with the bytes and flags of the parent, holes and guard page included, if and only if the free pages suffice for them and the missing tables; or nothing; every entry the child had stays |
| UserMemory.GainedView | kernel/core/vm.c:185-276 | pages given to one process add exactly those to what it sees; no other process can tell |
| UserMemory.GainedUndone | kernel/core/vm.c:248-276 | unmapping what was gained leaves only extra table pages |
| UserCopy.WalkAddr | kernel/core/vm.c:95-110 | an entry exactly for valid user-accessible pages below MAXVA |
| UserCopy.CopyOut | kernel/core/vm.c:291-320 | the bytes are stored, across pages; on failure exactly those before the first page that may not be written; nothing else changes |
| UserCopy.CopyIn | kernel/core/vm.c:325-344 | succeeds if and only if every address may be read, and delivers what the process sees |
| UserCopy.StoredIsolated | kernel/core/vm.c:291-320 | a store into one process leaves what every other sees unchanged: a parent and its copy are independent |
| UserString.CopyInStr | kernel/core/vm.c:350-383 | succeeds if and only if a string of fewer than max bytes is there to be read, and delivers it |
| UserString.CStringUnique | kernel/core/vm.c:350-383 | an address holds at most one string |
| UserString.PushArgs | kernel/core/proc.c:791-822 | succeeds if and only if there are at most MAXARG arguments, strings and pointers fit on the stack, and its pages may be written; then the stack holds an aligned null-ended array of pointers to exactly the argument strings; other processes see no change |
| UserString.NumberOf | kernel/core/proc.c:813-822 | a pointer stored byte by byte is read back as the same number |
| Teardown.UvmCreate | kernel/core/vm.c:150-157 | an empty space on a page that was free; null exactly if none is free, and then nothing changes |
| Teardown.FreeWalk | kernel/core/vm.c:222-235 | every node below is freed, no other page is touched; "freewalk: leaf" is not reached once the leaves are gone |
| Teardown.UvmFree | kernel/core/vm.c:238-243 | with all leaves below sz every page of the space is free again |
| ProcMemory.ProcPagetable | kernel/core/proc.c:290-312 | TRAMPOLINE leads to the trampoline, readable and executable, TRAPFRAME to the trapframe, readable and writable, both for the kernel only, and no other page is mapped; exactly if three pages are free; on failure every page is back |
| ProcMemory.ProcFreePagetable | kernel/core/proc.c:314-319 | everything the space owned is free, nothing else changes |
| ProcMemory.ForkMemory | kernel/core/proc.c:674-691 | the child sees exactly the image of its parent, all other processes what they saw; its two special pages lead to the trampoline and to its own trapframe, which is zeroed; fork fails if and only if the free pages do not suffice for trapframe, tables and copies, and then returns every page it took |
| ProcMemory.ForkThenFree | kernel/core/proc.c:321-350 | fork followed by freeproc gives every page back to its owner before |
| ProcMemory.AddedView | kernel/core/proc.c:352-405 | while a process is made, the others see no difference |
| ProcMemory.GrowProc | kernel/core/proc.c:647-672 | sbrk up adds pages whose bytes are all 0, sbrk down removes exactly those above; refused exactly for a size out of range or too few free pages, and then nothing changes; the two special pages lead where they led; other processes see no change |
| SchedRuns.NeverPanics | kernel/core/proc.c:574-598 | no operation a hart comes to panics (sched, release, acquire, pop_off, sleep, "sched returned"), and executing it keeps the invariant |
| SchedRuns.StepKeeps | kernel/core/proc.c:574-609 | every step of every hart, traps included, keeps the invariant |
| SchedRuns.InitInv | kernel/core/proc.c:407-454 | the machine after start-up satisfies it |
| SchedRuns.EveryRun | kernel/core/proc.c:906-939 | it holds in every world of every run, for any number of harts, and none of them is about to panic |
| SchedRuns.OneHartEach | kernel/core/proc.c:906-939 | no two harts execute, or are assigned, the same process |
| SchedRuns.FreeLockMeans | kernel/core/proc.c:574-609 | with p->lock free: RUNNING if and only if some hart has c->proc == p; at most one has; and exactly that one executes p |
| SchedRuns.NoffCounts | kernel/core/intr.c:9-32 | noff is the number of spinlocks the hart holds; interrupts are off exactly if there are any or the context keeps them off |
| SchedRuns.HandOver | kernel/core/proc.c:574-598 | on both sides of swtch the hart holds the lock of that process and no other, with noff 1, and the lock stays recorded as its own |
| SchedRuns.FreedAfterLeaving | kernel/core/proc.c:721-763 | a slot is freed or taken only when no hart is on its kernel stack |
| SchedRuns.RaceFree | kernel/core/proc.c:611-645 | accesses to a slot are made by the hart that set its lock; two harts are never about to touch the same slot |
| SchedRuns.HomeKept | kernel/core/intr.c:9-32 | the interrupt setting a process returns to is changed by no acquire, release, sleep or switch |
| SchedWake.SleepCommits | kernel/core/proc.c:611-634 | from its release of the caller's lock on, sleep only stores the channel it was given and SLEEPING |
| SchedWake.NoLostWakeup | kernel/core/proc.c:611-645 | meanwhile it holds its own slot's lock: no other hart tests the slot in wakeup, and one that comes for the lock waits |
| SchedWake.FallsAsleep | kernel/core/proc.c:611-634 | each of those steps leads to SLEEPING on that channel |
| SchedWake.WakeIfMeans | kernel/core/proc.c:636-645 | a test of wakeup makes its slot RUNNABLE if it sleeps on the channel; no other state changes, and no channel |
| SchedWake.WakeupWakes | kernel/core/proc.c:636-645 | before wakeup(c) returns it has tested every slot, and one that sleeps on c then is RUNNABLE after it: none sleeps on c all through the call, whatever else the harts do |
| SchedMoves.StatesMove | kernel/core/proc.c:574-645 | a state changes only along the life of a process: the process leaves RUNNING by its own store, the scheduler picks it if it is RUNNABLE, wakeup and kill make a sleeper RUNNABLE; a channel is set and cleared by its process |
| SchedMoves.StoresBeforeSwitch | kernel/core/proc.c:600-634 | before it switches away yield has stored RUNNABLE, sleep SLEEPING and proc_exit ZOMBIE |
| SchedMoves.LoopTurns | kernel/core/proc.c:906-939 | at slot i the scheduler tests slot i and goes on with the next, round and round; its other operations leave that as it is |
| SchedTyping.AcquireOk | kernel/core/spinlock.c:26-39 | acquire, operation by operation, is safe where the lock is not held |
| SchedTyping.ReleaseOk | kernel/core/spinlock.c:41-51 | release is safe for a lock the hart holds |
| SchedTyping.SleepOk | kernel/core/proc.c:611-634 | sleep with just the condition lock returns with just that lock |
| SchedTyping.YieldOk | kernel/core/proc.c:600-609 | yield with no lock is safe |
| SchedTyping.ExitOk | kernel/core/proc.c:897-903 | the end of proc_exit, with wait_lock held, is safe and never returns |
| SchedTyping.LoopOk | kernel/core/proc.c:906-939 | the scheduler loop is safe for every slot |
| SchedTyping.FreshOk | kernel/core/proc.c:67-94 | a new process enters with its own lock held and leaves it |
| SchedTyping.TrapOk | kernel/core/proc.c:600-609 | a list interrupted between two operations is safe to come back to |
| SchedTyping.WakeupOk | kernel/core/proc.c:636-645 | one turn of wakeup is safe |
| LifecycleSteps.StepKeeps | kernel/core/proc.c:674-763 | every step of fork, wait, exit, kill and sleep keeps the invariant of the process table |
| LifecycleRuns.EveryRun | kernel/core/proc.c:674-763 | it holds in every world of every run |
| LifecycleRuns.NoMissedChild | kernel/core/proc.c:721-763 | with wait_lock free nobody sleeps in wait while having a zombie child |
| LifecycleRuns.ParentLives | kernel/core/proc.c:884-890 | a zombie has a living parent, and a parent pointer names the process it was set to, never a later user of the slot |
| LifecycleRuns.PidPartition | kernel/core/proc.c:674-719 | the pids handed out are the disjoint union of those in a slot, one slot each, the reaped and those of failed forks |
| LifecycleRuns.FateIsFinal | kernel/core/proc.c:721-763 | a pid is reaped at most once, only as a zombie, by its parent, with the status recorded when it died |
| LifecycleRuns.StatusDelivered | kernel/core/proc.c:721-763 | in every run: once the process with a pid has called proc_exit(v), the status recorded for the pid is v, and so is the one wait delivers |
| LifecycleRuns.StatesMove | kernel/core/proc.c:674-763 | every step moves every slot along the life of a process; another slot is only woken, taken for a child, made ready or freed |
| LifecycleRuns.WaitAnswers | kernel/core/proc.c:757-761 | wait gives up only without children or when killed; it sleeps only with a child and no zombie one |
| LifecycleRuns.KillsOne | kernel/core/proc.c:842-857 | kill marks the one process with that pid, makes it RUNNABLE if it sleeps, and changes nothing else |
| LifecycleRuns.InitLives | kernel/core/proc.c:865-867 | the first process is never a zombie and never freed |
| Sleeplock.Exclusive | kernel/core/sleeplock.c:35-51 | at most one thread is inside; a sleeper implies another inside |
| Sleeplock.Lock.Try | kernel/core/sleeplock.c:35-51 | a turn of the loop takes the lock exactly if it is free, else sleeps (a hart without process panics in sleep) |
| Sleeplock.Lock.Release | kernel/core/sleeplock.c:53-63 | panics for every thread but the one inside; then the lock is free and no sleeper is left |
| Sleeplock.Lock.Holding | kernel/core/sleeplock.c:65-70 | true for the thread inside and no other |
| Sleeplock.Lock.constructor | kernel/core/sleeplock.c:27-33 | free, nobody inside |
| Pipe.StreamConserved | kernel/core/pipe.c:79-140 | bytes removed followed by bytes buffered are the bytes inserted, in order, across wrap of the 32-bit counters |
| Pipe.SleepersMean | kernel/core/pipe.c:79-140 | lock free: a sleeping writer means full and readable; in a calm pipe a sleeping reader means empty and writable |
| Pipe.KilledWriter | kernel/core/pipe.c:88-91 | a pipe that is not calm, reached by calls: a reader sleeps on a pipe with data after a killed writer |
| Pipe.PipeObj.constructor | kernel/core/pipe.c:32-36 | an empty pipe with both ends open |
| Pipe.PipeObj.Write | kernel/core/pipe.c:79-108 | what one call inserted over all its turns is the prefix of its source that it reports; -1 exactly if it quits; a calm pipe stays calm exactly unless it quits after a byte while a reader sleeps |
| Pipe.PipeObj.Read | kernel/core/pipe.c:110-140 | sleeps exactly on an empty writable pipe; what it delivers are the bytes it removed, up to the first that cannot be copied out, which is removed but not delivered |
| Pipe.PipeObj.Close | kernel/core/pipe.c:62-77 | the page is freed at the second of the two closes, and no sleeper is left; afterwards the pipe is calm |
| Pipe.PipeObj.Rouse | kernel/core/proc.c:842-857 | a thread woken by kill goes back to its loop, and every claim stays |
| Layout.UnpackPack | tools/mkfsimg.py:44-66 | reading a packed dinode gives the dinode |
| Layout.PackUnpack | tools/mkfsimg.py:44-66 | packing what was read gives the same 64 bytes |
| Layout.SuperReads | tools/mkfsimg.py:207-220 | the superblock that was packed is read |
| Layout.WordSet | kernel/fs/fs.c:280-319 | storing one entry of an indirect block changes that entry and no other |
| Layout.BlockBitSet | kernel/fs/fs.c:55-86 | setting or clearing one bit of a bitmap block changes that bit and no other |
| FsState.BitMeans | kernel/fs/fs.c:55-86 | a bit is set if and only if the block is metadata, or holds some block of some file, or is an indirect block |
| FsState.NoSharing | kernel/fs/fs.c:280-319 | no block has two uses: not in two files, not twice in one, not as data and as an indirect block |
| FsState.TakenBytes | kernel/fs/fs.c:55-73 | taking a block changes no byte of any file |
| FsBytes.WroteContents | kernel/fs/fs.c:409-464 | the bytes written replace those at off, the file grows to hold them, no other file changes |
| FsTrunc.NothingLeft | kernel/fs/fs.c:321-352 | an inode without block numbers owns nothing |
| FileSystem.FileSystem.Mount | kernel/fs/fs.c:88-107 | an image that holds a good state, laid out as the superblock in its block 1 says, is a valid file system; every later operation leaves that block alone |
| FileSystem.FileSystem.Balloc | kernel/fs/fs.c:55-73 | the first free block, zeroed, and its bit set; 0 exactly when none is free |
| FileSystem.FileSystem.Bfree | kernel/fs/fs.c:75-86 | the bit of a used block is cleared; the panic on a free block is not reached |
| FileSystem.FileSystem.Bmap | kernel/fs/fs.c:280-319 | the block of the file, taken together with the indirect block where there is none; nothing else changes hands |
| FileSystem.FileSystem.Iupdate | kernel/fs/fs.c:174-199 | the in-memory inode is on disk, and no other |
| FileSystem.FileSystem.Readi | kernel/fs/fs.c:354-407 | exactly the requested slice of the contents, with the error answers |
| FileSystem.FileSystem.Writei | kernel/fs/fs.c:409-464 | the first r bytes replace those at off; short only on a full disk; -1 exactly as stated; the bitmap stays exact |
| FileSystem.FileSystem.FreeDirect | kernel/fs/fs.c:327-332 | the direct blocks are released, each once |
| FileSystem.FileSystem.FreeIndirect | kernel/fs/fs.c:334-345 | the blocks named by the indirect block and itself are released, each once |
| FileSystem.FileSystem.Itrunc | kernel/fs/fs.c:321-352 | the file is empty, all its blocks free, every other file as before |
| FileSystem.FileSystem.Iget | kernel/fs/fs.c:109-140 | the slot that holds the inode or an unused one, one reference more; no slot exactly where the source panics |
| FileSystem.FileSystem.Ilock | kernel/fs/fs.c:201-223 | the loaded inode is what the disk says; fails exactly for type 0 |
| FileSystem.FileSystem.Ialloc | kernel/fs/fs.c:156-172 | the first inode of type 0 gets the type asked for, every other field 0, and a slot whenever one is unused or has it; no block changes hands |
| FileSystem.FileSystem.Iput | kernel/fs/fs.c:234-265 | one reference fewer; storage is released exactly at the last reference of an unlinked inode; no unreferenced unlinked inode is left |
| FileIO.File.Read | kernel/core/file.c:141-170 | the 512-byte pieces deliver exactly the slice a single read would, and off moves past it |
| FileIO.File.Write | kernel/core/file.c:203-233 | the pieces amount to one write of a prefix at the offset, be it empty; the prefix is short only for the stated reasons |
| FileIO.WroteTwice | kernel/core/file.c:203-233 | two writes one after the other are one |
| Directory.NamecmpIs | kernel/fs/fs.c:466-468 | strncmp is 0 exactly for names equal up to fourteen characters |
| Directory.CNamePadded | kernel/fs/fs.c:512-558 | a NUL-padded name field reads back as the name |
| Directory.LinkMeans | kernel/fs/fs.c:512-558 | an entry written in a free place adds exactly that binding, and names stay unique |
| Directory.UnlinkMeans | kernel/core/syscall.c:421-494 | a cleared entry removes exactly that binding |
| Directory.Dirlookup | kernel/fs/fs.c:470-510 | the inode number bound to the name, cut to fourteen characters, and where; 0 exactly if there is none |
| Directory.Dirlink | kernel/fs/fs.c:512-558 | on success exactly the one binding more, in the first free entry or at the end; on failure the directory is as before, and no other file ever changes |
| Paths.Skipelem | kernel/fs/fs.c:560-586 | what lies between the first slashes and the next: its first fourteen characters, and what follows past the slashes; it is the first element of the split path |
| Paths.Namei | kernel/fs/fs.c:588-634 | over a tree of entries, namex is folding lookup over the split path |
| Paths.NameiParent | kernel/fs/fs.c:588-638 | the same for all but the last element, and that element |
| Paths.SplitAppend | kernel/fs/fs.c:560-586 | paths joined at a slash split into the joined elements |
| Paths.ResolveAppend | kernel/fs/fs.c:588-629 | resolving joined element lists is resolving one after the other |
| Paths.Dirfindname | kernel/fs/fs.c:641-683 | the trimmed name of the first entry for the inode |
| Paths.Getcwd | kernel/fs/fs.c:685-743 | the climb ends and answers the path of the directory, exactly if it fits |
| Paths.NameFinds | kernel/fs/fs.c:641-683 | the name found in the parent leads to the directory |
| Paths.RoundTrip | kernel/fs/fs.c:588-743 | namei of what getcwd_path answers is the directory, where no name field ends in a space |
| Paths.RoundTripIff | kernel/fs/fs.c:641-743 | and if and only if, for every directory: exactly unless some name field on the way up ends in a space |
| PathTree.CutExample | kernel/fs/fs.c:641-683 | a tree in which the round trip misses a directory |
| PathTree.RootOk | tools/mkfsimg.py:263-272 | the root alone is a well-formed tree |
| PathTree.LinkTree | kernel/core/syscall.c:496-554 | an entry for a file put in a free place keeps the tree well-formed |
| PathTree.MakeTree | kernel/core/syscall.c:212-243 | so does an entry for a new directory with its "." and ".." |
| PathTree.UnlinkTree | kernel/core/syscall.c:421-494 | so does clearing an entry of a file or of an empty directory |
| Namex.LookupIs | kernel/fs/fs.c:470-510 | lookup over the entries of a directory is what dirlookup answers over its bytes |
| Namex.Turn | kernel/fs/fs.c:604-622 | one turn of the loop: the next inode is held, the last one given back, and it is what the tree says |
| Namex.Walk | kernel/fs/fs.c:588-638 | namei and nameiparent over the disk find what resolving the split path in the tree of its directories gives, with exactly one reference more, and none when there is no answer |
| TreeDisk.PutTree | kernel/fs/fs.c:512-558 | an entry written in the bytes of a directory is that entry put in the tree |
| TreeDisk.LinkKeeps | kernel/core/syscall.c:536-539 | link: after dirlink of a file the directories on the disk are in order and the tree well-formed |
| TreeDisk.MakeKeeps | kernel/core/syscall.c:212-243 | mkdir: so after the two dot entries and the entry for the new directory; nothing named its inode before |
| TreeDisk.UnlinkKeeps | kernel/core/syscall.c:469-475 | unlink: so after the entry of a file is cleared |
| TreeDisk.RmdirKeeps | kernel/core/syscall.c:463-490 | so after an empty directory loses its entry and its last link: no other directory names it |
| TreeDisk.DropKeeps | kernel/core/syscall.c:486-490 | so after the last link of a file is gone |
| TreeDisk.Recounted | kernel/core/syscall.c:477-483 | the count of links of a directory changes nothing in the tree while some are left |
| CwdDisk.Dirfindname | kernel/fs/fs.c:641-683 | over the bytes of a directory: the trimmed name of its first entry for the inode |
| CwdDisk.Parent | kernel/fs/fs.c:711-722 | one step of the climb: the parent is held by one reference more, and the name it has for the directory found |
| CwdDisk.Getcwd | kernel/fs/fs.c:685-743 | over the disk: the climb ends with the path of the directory in the tree, exactly if it fits; every reference it took is given back |
| CwdDisk.ThereAndBack | kernel/fs/fs.c:588-743 | over the disk: namei of what getcwd_path answers is the directory if and only if no name field on the way up ends in a space |
| Links.Tree.constructor | tools/mkfsimg.py:263-272 | the root alone has right counts |
| Links.Tree.Create | kernel/core/syscall.c:183-256 | exactly when it succeeds; then the name leads to the new inode and every other name where it led; otherwise everything is put back; the names "." and ".." are found |
| Links.Tree.Unlink | kernel/core/syscall.c:421-494 | exactly when it succeeds; then the name leads nowhere and every other name where it led, and exactly the counts go |
| Links.Tree.CutAway | kernel/core/syscall.c:464-492 | the entry is cleared and the counts of inode and parent go down |
| Links.Tree.Link | kernel/core/syscall.c:496-554 | exactly when it succeeds; then the name leads to the inode, every other name where it led, and there is one link more, or the count put back; the names "." and ".." are found |
| Links.Tree.Iput | kernel/fs/fs.c:234-265 | an unlinked inode goes exactly with its last reference |
| Links.CountsMean | kernel/core/syscall.c:183-256 | a file's nlink is the number of entries naming it, a directory's its base plus its subdirectories; unlinked only while held |
| Links.FoundIs | kernel/fs/fs.c:470-510 | what is found in a directory: its names, and "." and ".." |
| Links.LinkInv | kernel/core/syscall.c:496-554 | a new entry for a file with its count one up keeps all counts right |
| Links.MadeInv | kernel/core/syscall.c:212-243 | a new file or directory keeps all counts right |
| Links.CutInv | kernel/core/syscall.c:469-491 | removing an entry keeps all counts right |
| Mkfs.Mkfs.constructor | tools/mkfsimg.py:69-95 | the empty image has the geometry the kernel expects |
| Mkfs.Mkfs.AllocInode | tools/mkfsimg.py:113-120 | the next inode with the type and one link; none exactly if the inodes have run out |
| Mkfs.Mkfs.AllocBlock | tools/mkfsimg.py:122-129 | the next block, zeroed, owned by nobody before; none exactly if the image is full |
| Mkfs.Mkfs.Iappend | tools/mkfsimg.py:142-177 | the data follow what the file held, across direct and indirect blocks; no other file changes; refused exactly for a file too long or an image without the blocks needed |
| Mkfs.Mkfs.Dirlink | tools/mkfsimg.py:179-190 | one more directory entry; refused exactly for a bad name, a number out of range, or for want of room |
| Mkfs.Mkfs.WriteBitmap | tools/mkfsimg.py:222-230 | the image holds, bitmap and all, what the kernel calls a good file system |
| Mkfs.Mkfs.WriteSuperblock | tools/mkfsimg.py:207-220 | what the kernel reads in block 1 is where things are; nothing else on the image changes |
| Mkfs.Build | tools/mkfsimg.py:252-292 | an image exactly for the lists that fit, in inodes, names, sizes, blocks and numbers of 32 bits; its superblock says where things are, and it is good and has every file under its name |
| Image.Finds | tools/mkfsimg.py:192-205 | the root binds each name exactly once, to an inode with exactly the packed bytes |
| Image.ImageDirs | tools/mkfsimg.py:252-292 | every entry of the image names an inode in use, and its only directory is the root |
| Image.ImageTree | tools/mkfsimg.py:252-292 | the directories of the image are a well-formed tree |
| Image.Resolves | kernel/fs/fs.c:588-629 | in that tree the path of each file leads to its inode |
| Image.KernelReads | kernel/fs/fs.c:354-407 | mount from the superblock, namei of the path and readi on the image return exactly the packed bytes of every file, empty ones too |
| Bcache.Cache.constructor | kernel/core/bio.c:14-28 | thirty buffers on the list, none holding a block |
| Bcache.Cache.Bget | kernel/core/bio.c:30-60 | the buffer of the block, or the idle buffer released longest ago; none exactly if all are in use; never two for a block |
| Bcache.Cache.Bread | kernel/core/bio.c:62-69 | what it returns is what the disk holds |
| Bcache.Cache.Load | kernel/core/bio.c:62-69 | the same for the holder of the sleep lock, with other threads in between |
| Bcache.Cache.Bwrite | kernel/core/bio.c:71-75 | the disk holds the buffer's data, other blocks as before |
| Bcache.Cache.Brelse | kernel/core/bio.c:77-95 | one reference fewer, with others holding or waiting; at the last one the buffer is the latest released, and at the front |
| Bcache.Cache.Unlock | kernel/core/bio.c:77-81 | the sleep lock is released; nothing else changes |
| BcacheUse.Exclusive | kernel/core/bio.c:30-60 | two threads have the same buffer if and only if they asked for the same block; two that hold sleep locks have different buffers and blocks |
| BcacheUse.StepKeeps | kernel/core/bio.c:30-95 | a buffer's count is the number of threads between bget and the end of brelse with it, and its block is theirs |
| BcacheUse.Threads.constructor | kernel/core/bio.c:14-28 | no thread has a buffer |
| BcacheUse.Threads.Get | kernel/core/bio.c:30-60 | a thread comes to wait for the buffer of its block; the panic is reached only with every buffer in use by a thread |
| BcacheUse.Threads.Enter | kernel/core/bio.c:38-41 | it gets the sleep lock of that buffer, which still stands for its block |
| BcacheUse.Threads.Read | kernel/core/bio.c:62-69 | it sees what the disk holds at the block it asked for, whatever other threads did in between |
| BcacheUse.Threads.Write | kernel/core/bio.c:71-75 | the disk holds its data at the block it asked for |
| BcacheUse.Threads.Exit | kernel/core/bio.c:77-81 | it gives up the sleep lock and keeps its reference |
| BcacheUse.Threads.Leave | kernel/core/bio.c:83-95 | it is gone; for the others nothing changes |
| Bcache.Cache.MoveToFront | kernel/core/bio.c:87-92 | relinking gives the list with that buffer moved to the front |
| Bcache.InList | kernel/core/bio.c:14-28 | the list is a permutation of the thirty buffers |
| Bcache.OldestIdle | kernel/core/bio.c:47-57 | the last idle buffer on the list is the least recently released |
| Bcache.Unlink | kernel/core/bio.c:87-92 | the pointer stores that take a buffer off give the ring without it |
| Bcache.PushFront | kernel/core/bio.c:87-92 | the pointer stores that put it behind the head give the ring with it first |
| VirtioDisk.Disk.constructor | kernel/drivers/virtio_disk.c:114-184 | every descriptor free, both rings empty |
| VirtioDisk.Disk.AllocDesc | kernel/drivers/virtio_disk.c:36-44 | the first free descriptor, or none is free |
| VirtioDisk.Disk.FreeDesc | kernel/drivers/virtio_disk.c:46-59 | neither panic is reached; the descriptor is clear and free |
| VirtioDisk.Disk.FreeChain | kernel/drivers/virtio_disk.c:61-72 | exactly the three descriptors of the chain are freed |
| VirtioDisk.Disk.Alloc3 | kernel/drivers/virtio_disk.c:74-85 | three different free descriptors, or fewer were free and all are given back |
| VirtioDisk.Disk.Submit | kernel/drivers/virtio_disk.c:186-235 | a well-formed chain under a head not in use is offered; or too few were free and nothing changed |
| VirtioDisk.Disk.Execute | kernel/drivers/virtio_disk.c:202-235 | what the device does on following the chain: exactly the request asked for |
| VirtioDisk.Disk.CompleteUsed | kernel/drivers/virtio_disk.c:89-112 | with the device working beside it everything in the used ring is consumed; the panics on id, status and buf are not reached |
| VirtioDisk.Disk.Finish | kernel/drivers/virtio_disk.c:241-249 | the chain is free, and buffer and sector hold the same data, for a write that which was handed over |
| Virtio.NoThreeChains | kernel/drivers/virtio_disk.c:61-85 | eight descriptors make at most two chains |
| Virtio.NextSlot | kernel/drivers/virtio_disk.c:231-233 | the slot of a 16-bit index is that of the unwrapped one; a pending entry is never overwritten |
| Virtio.RingPush | kernel/drivers/virtio_disk.c:231-233 | an entry stored at the index is the last of the ring |
| Virtio.RingPop | kernel/drivers/virtio_disk.c:89-112 | the entry at the index is the first of the ring |
| RefCount.CountsFollow | kernel/core/file.c:29-97 | between calls a file's ref is the number of descriptors naming it and an inode's the number of files and working directories, so the counts follow from the tables |
| RefCount.PageFreed | kernel/core/pipe.c:62-77 | a pipe's page has been freed, once, if and only if no descriptor of any process names an end of it |
| RefCount.CanClose | kernel/core/file.c:62-97 | the page or inode that a last close needs is there |
| RefCount.ClosedInv | kernel/core/file.c:62-97 | closing a reference keeps every count right |
| RefCount.Kernel.constructor | kernel/core/file.c:16-27 | no file in use, no pipe |
| RefCount.Kernel.FileAlloc | kernel/core/file.c:29-46 | the first unused file with one reference; none exactly if all are in use |
| RefCount.Kernel.FileDup | kernel/core/file.c:48-60 | one reference more, refused exactly for an unused file |
| RefCount.Kernel.FileClose | kernel/core/file.c:62-97 | one reference fewer; the last one closes the pipe end or puts the inode |
| RefCount.Kernel.PipeClose | kernel/core/pipe.c:62-77 | the flag of the end is cleared and the page goes with the second |
| RefCount.Kernel.PipeAlloc | kernel/core/pipe.c:19-60 | two new files, the two ends of a new pipe, exactly if there are a page and two unused files; on failure everything is as before |
| RefCount.Kernel.FdAlloc | kernel/core/syscall.c:586-595 | the lowest free descriptor names the file; -1 exactly if all are in use |
| RefCount.Kernel.Close | kernel/core/syscall.c:115-129 | exactly the descriptor is cleared, and all counts are right |
| RefCount.Kernel.Dup | kernel/core/syscall.c:146-168 | the lowest free descriptor names the same file, and all counts are right |
| RefCount.Kernel.Dup2 | kernel/core/syscall.c:635-656 | newfd names the file of oldfd, whatever it named before, and all counts are right |
| RefCount.Kernel.PipeCall | kernel/core/syscall.c:597-633 | two new descriptors for the two ends, exactly if there are a page, two unused files, two free descriptors and a working copyout; every failure leaves descriptors, files and open pipes as before |
| RefCount.Kernel.Open | kernel/core/syscall.c:258-350 | it succeeds for the console, a file, the gpu, and a directory not opened for writing, given an unused file and a free descriptor; then the lowest free descriptor is a new file for that device or inode; every failure leaves descriptors, files and inode counts as before |
| RefCount.Kernel.Chdir | kernel/core/syscall.c:352-381 | exactly the working directory changes, and all counts are right |
| RefCount.Kernel.Fork | kernel/core/proc.c:697-704 | the child has exactly its parent's files and directory, and all counts are right |
| RefCount.Kernel.Exit | kernel/core/proc.c:869-880 | the process names nothing any more, others what they named, and all counts are right |
| RefCount.Kernel.Reap | kernel/core/proc.c:335-341 | freeing the slot of a zombie loses no reference |
| Fat16.Image.FreeChain | tools/fat16_pack.py:157-168 | it stops on any table, and clears exactly the clusters it comes to; for a chain, the chain and nothing else |
| Fat16.Image.AllocClusters | tools/fat16_pack.py:171-185 | the lowest free clusters, linked in order; refused exactly if there are too few |
| Fat16.Image.FindRootEntry | tools/fat16_pack.py:138-154 | the first live entry of the name, and the first free one met |
| Fat16.Image.CopyIn | tools/fat16_pack.py:209-214 | each cluster holds its piece, the last one padded; other clusters as before |
| Fat16.Image.WriteFile | tools/fat16_pack.py:188-224 | the entry has the archive attribute and the size of the data, and following the table from it gives exactly the data; every other file reads as before and chains stay disjoint exactly if what the slot named before is in no other chain; no space exactly if fewer clusters than needed are unused once that is cleared |
| Fat16.FileBytesIs | tools/fat16_pack.py:188-224 | what a reader following the table finds is what the owned chain holds |
| Fat16.FreedInv | tools/fat16_pack.py:157-168 | after free_chain the other files own what they owned, if it comes to none of their clusters |
| Fat16.WrittenBytes | tools/fat16_pack.py:188-224 | the new file reads back as the data |
| Fat16.WrittenInv | tools/fat16_pack.py:188-224 | with the new entry all chains are well formed and disjoint |
| Fat16.OthersRead | tools/fat16_pack.py:188-224 | other files read as before |
| Grep.HereOne | user/grep.c:20-34 | meaning: a literal or dot fits one character, the rest follows |
| Grep.HereStar | user/grep.c:36-43 | meaning: some number of fitting characters, then the rest |
| Grep.HereNone | user/grep.c:20-34 | meaning: the empty pattern matches, with a final $ only at the end |
| Grep.MatchHere | user/grep.c:20-34 | true if and only if some prefix of the text matches the pattern |
| Grep.MatchStar | user/grep.c:36-43 | true if and only if some number of c and then a match of the rest begins the text |
| Grep.Match | user/grep.c:8-18 | true if and only if some substring (with ^, some prefix) of the line matches |
| Bcache.Cache.Lock | kernel/core/bio.c:38-41 | the sleep lock of a buffer is taken; nothing else changes |
| Bcache.Cache.Change | kernel/core/bio.c:71-75 | the holder changes the data; until written it may differ from the disk, for nobody else |
| Bcache.ChangeInv | kernel/core/bio.c:30-75 | a change to one buffer in its place keeps the cache coherent |
| Bcache.MoveInv | kernel/core/bio.c:77-95 | releasing a buffer to the front keeps the order of last release |
| Directory.ReadEnt | kernel/fs/fs.c:470-510 | one turn of the loops: the entry at the offset |
| Directory.WriteEnt | kernel/fs/fs.c:512-558 | a whole entry is written at a multiple of its size; or nothing, which happens only at the end of the directory |
| Directory.ClearEnt | kernel/core/syscall.c:469-475 | overwriting an entry with zeros cannot fail, and removes exactly that binding |
| Directory.Isdirempty | kernel/core/syscall.c:398-420 | the scan answers true exactly if no entry but the first two is live |
| Directory.EmptyMeans | kernel/core/syscall.c:398-420 | with "." and ".." in the first two places, empty means that no other name is bound |
| Fat16.Image.LinkUp | tools/fat16_pack.py:183-185 | each cluster names the next, the last the end mark |
| Fat16.ChainUnique | tools/fat16_pack.py:157-168 | a chain has no cluster twice |
| Fat16.ChainOnly | tools/fat16_pack.py:157-168 | a cluster starts at most one chain |
| Fat16.WalkedChain | tools/fat16_pack.py:157-168 | what free_chain clears for a chain is that chain |
| Fat16.Shattered | tools/fat16_pack.py:188-224 | once a cluster of another file is cleared, the image with the new entry is well formed for no choice of chains |
| Fat16.StaleSlot | tools/fat16_pack.py:200-203 | an image where the free slot still names a cluster of a file |
| FileIO.File.constructor | kernel/core/file.c:29-46 | an open inode file at offset 0 |
| FileIO.File.WritePiece | kernel/core/file.c:218-230 | one piece written moves the offset past it |
| FileSystem.FileSystem.BmapDirect | kernel/fs/fs.c:280-286 | the direct block, taken if there is none |
| FileSystem.FileSystem.BmapEntry | kernel/fs/fs.c:302-315 | the block named by the indirect block, taken if there is none |
| FileSystem.FileSystem.ReadPiece | kernel/fs/fs.c:388-401 | one turn of the loop of readi delivers the bytes of one block |
| FileSystem.FileSystem.WriteTurn | kernel/fs/fs.c:439-453 | one turn of the loop of writei: one block mapped and its bytes replaced, or 0 on a full disk |
| FileSystem.FileSystem.SetEnd | kernel/fs/fs.c:455-459 | the size grows if need be and the inode is on disk |
| Mkfs.Mkfs.DirectBlock | tools/mkfsimg.py:155-158 | the direct block of the file, taken if there is none; refused exactly by a full image |
| Mkfs.Mkfs.IndBlock | tools/mkfsimg.py:160-163 | the indirect block, taken if there is none; refused exactly by a full image |
| Mkfs.Mkfs.EntryBlock | tools/mkfsimg.py:164-168 | the block it names, taken if there is none; refused exactly by a full image |
| Mkfs.Mkfs.AppendTurn | tools/mkfsimg.py:150-174 | one turn of the loop: the rest of one block; refused exactly at the end of the file or of the image |
| Mkfs.Mkfs.FileBlock | tools/mkfsimg.py:150-168 | the block for a place of the file, direct or indirect |
| Mkfs.Mkfs.StoreBlock | tools/mkfsimg.py:169-172 | the piece is stored in its block |
| Mkfs.Mkfs.ReadInode | tools/mkfsimg.py:104-107 | the dinode on the image is the inode |
| Mkfs.Mkfs.WriteInode | tools/mkfsimg.py:109-111 | exactly that inode on the image becomes the given one |
| Mkfs.MakeRoot | tools/mkfsimg.py:263-272 | the root directory with its two entries, which cannot fail |
| Mkfs.AddItem | tools/mkfsimg.py:192-205 | one more file with its bytes, and one entry for it; refused exactly if the item does not fit |
| PageTable.Machine.AddTable | kernel/core/vm.c:67-90 | a free page, zeroed, becomes the missing node |
| PageTable.Machine.SetPte | kernel/core/vm.c:117-146 | one entry is stored, and means exactly that leaf |
| PageTable.Machine.ClearPte | kernel/core/vm.c:162-181 | one entry is cleared, and its frame freed with do_free |
| Paths.SkipSlashes | kernel/fs/fs.c:561-563 | the first place that is no slash |
| Paths.ScanElem | kernel/fs/fs.c:568-572 | the end of the element |
| Pipe.PipeObj.StartWrite | kernel/core/pipe.c:79-86 | a new call with nothing inserted yet |
| Pipe.PipeObj.StartRead | kernel/core/pipe.c:110-117 | a new call with nothing removed yet |
| RefCount.Kernel.Iget | kernel/fs/fs.c:109-140 | one reference more to the inode, in the caller's hand |
| RefCount.Kernel.Iput | kernel/fs/fs.c:234-265 | one reference fewer |
| RefCount.Kernel.CopyFd | kernel/core/proc.c:697-701 | one turn of the loop of fork: the child names the same file, and all counts are right |
| Sleeplock.Lock.Arrive | kernel/core/sleeplock.c:35-37 | a thread comes to the loop |
| Sleeplock.Lock.Kill | kernel/core/proc.c:842-857 | a sleeper made runnable by kill goes back to the loop |
| Teardown.ZeroEntry | kernel/core/vm.c:222-235 | one word of a node is zeroed |
| UserCopy.PutChunk | kernel/core/vm.c:311-314 | the bytes of one page are stored, and nothing else |
| UserMemory.MapFresh | kernel/core/vm.c:192-203 | a fresh page with the contents is gained, exactly if the free pages suffice for it and the missing tables; or only table pages are taken |
| UserMemory.AllocFailed | kernel/core/vm.c:192-203 | the error exits free again what was mapped |
| UserMemory.CopyTurn | kernel/core/vm.c:252-270 | one turn of the loop: the page of the parent, if there is one, is copied; refused only if there are too few free pages for the whole copy |
| UserMemory.CopyBack | kernel/core/vm.c:273-275 | the error exit frees again what was copied |
| UserString.CopyUpToNul | kernel/core/vm.c:366-377 | the bytes before the first NUL, and whether there is one |
| ProcMemory.PutBack | kernel/core/proc.c:328-331 | the trapframe goes back to the free list |
| VirtioDisk.Disk.PutBack | kernel/drivers/virtio_disk.c:74-85 | what was taken is free again |
| VirtioDisk.Disk.Offer | kernel/drivers/virtio_disk.c:202-235 | the chain is filled in and its head put in the available ring |
| VirtioDisk.Disk.Fetch | kernel/drivers/virtio_disk.c:231-235 | the device takes the oldest offered head, if any |
| VirtioDisk.Disk.DeviceRuns | kernel/drivers/virtio_disk.c:231-235 | any actions of the device, in any order, keep the protocol |
| VirtioDisk.OfferInv | kernel/drivers/virtio_disk.c:202-235 | offering a chain keeps descriptors and chains disjoint and the rings exact |
| VirtioDisk.FetchInv | kernel/drivers/virtio_disk.c:231-235 | so does the device taking a head |
| VirtioDisk.ExecuteInv | kernel/drivers/virtio_disk.c:89-112 | so does the device answering one |
| VirtioDisk.ConsumeInv | kernel/drivers/virtio_disk.c:89-112 | so does the driver consuming an answer |
| VirtioDisk.FinishInv | kernel/drivers/virtio_disk.c:247-248 | so does freeing the chain |
| Links.PutInv | kernel/fs/fs.c:234-265 | giving up a reference keeps all counts right |
| Links.GoneInv | kernel/fs/fs.c:234-265 | dropping an unlinked unreferenced inode keeps all counts right |

## Left out

- Assembly, CSR and MMIO code, UART, PLIC, GPU, virtio feature negotiation, timer: `swtch` is one step that changes which list of operations a hart works on; the device is abstract.
- `load_elf`, `uvmmaprange`, `setup_user_stack`, `uvmclear`, `kvmmap`: `UserString.PushArgs` starts from a loaded image with its stack; no page reclamation is claimed for a failing `load_elf`.
- Accessed and dirty bits of page-table entries, and superpages: the kernel makes neither; `Translation` faults on them as the hardware may.
- Physical addresses are page numbers, so the alignment and range panics of `kfree` are not modelled.
- Sequential consistency: the scheduler machine interleaves whole loads and stores of lock words and slots; the fences of `spinlock.c` are taken to provide this.
- Global deadlock freedom and fairness: no total lock order is kept by the source; safety and sleeping-implies-condition are proved instead.
- Kernel tasks of `proc_create`: the scheduler machine has their entry and return, the fork and wait machine has only processes made by fork.
- `pid` and `nlink` as 32-bit and 16-bit integers that wrap: they are unbounded here. Sizes, block numbers, pipe counters and ring indices have their widths.
- Concurrent file-system calls and crash consistency: there is no log, and `iput` and `dirlookup` give up locks half way; each call is one sequential operation.
- FileSystem.FileSystem.Iget: the panic for a full inode table is the answer NINODE.
- Paths.Namei: over a tree of directories as entry lists; `Namex.Walk` and `CwdDisk.Getcwd` are the same over blocks, with the references of the inodes passed on the way.
- Namex.Walk: names are bytes without NUL; a path relative to a working directory that has been unlinked is outside its precondition, since its ".." may name an inode that has been reused.
- Links.CountsMean: over maps of names; that these maps are the entries on the disk, and `nlink` the field of the dinode, is not stated.
- Links.Tree.Create: starts where `nameiparent` has resolved the path, as do the other two calls; that a directory file has no room for an entry is a parameter, `Directory.Dirlink` says when; device inodes are not made by any call here.
- Links.Tree.Unlink: a parent that has itself been unlinked is outside its precondition.
- Bcache.Cache.Bread: states nothing about block 0 of device 0, for which all buffers stand at start.
- VirtioDisk.Disk.Submit: the sleep loop around `alloc3_desc` is the caller's, who tries again; the polling loop for a hart without a process is left out.
- VirtioDisk.Disk.Execute: the device always answers status 0; requests in flight are for different buffers and sectors, which is `BcacheUse.Exclusive` for the threads inside.
- Pipe.PipeObj.Close: no thread may still be in a call on that end, as the reference counts ensure.
- RefCount.CountsFollow: between system calls, each of which is one step; interleaved calls of several processes are not modelled.
- LifecycleSteps.StepKeeps: a process on its way to exit does not sleep in `iput` of its working directory.
- RefCount.Kernel.Exit: the zombie state and the closing of files are one call here; in the source wait_lock is taken between them.
- RefCount.Kernel.Open: readable and writable flags are left out apart from the end of a pipe; the inode table is unbounded.
- Fat16.Image.WriteFile: the BIOS parameter block, the byte layout of table entries, `format_83` and growing the image are left out; clusters and entries are values. After a refusal for lack of space only the directory and the data area are claimed unchanged, since the image is not written back.
- Mkfs.Build: arguments that the script rejects or that make it raise give no image; reading host files and writing the output file are left out.
- Grep.Match: lines are strings; the line buffering of `grepfd` is left out.
- User programs other than the matcher, shell plumbing, console, logging, `sys_fstat`, `sys_ioctl` and time: input and output only, or easy members.
