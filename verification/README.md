# A model of the V6 kernel's storage, processes and editor engine

This project models the parts of a small UNIX kernel, and of its editor `ed`, whose
correctness rests on state that changes in steps, and proves what each part is for.

- **The block file system** (`Machine`, `FreeChain`, `BlockTree`, `UserIo`, `FlatFile`,
  `Truncate`, `FileSystem`, `FileRuns`). `FileSystem.FileSys` has the fields and routines of
  `alloc`, `free`, `bmap`, `readi`, `writei` and `itrunc`. Every block has an owner: the free
  chain, or one place in one file's tree. Above that, a file is a flat array of bytes, and
  any run of reads, writes and truncations on any files gives the results of flat arrays.
- **The free list that `mkfs` makes** (`Mkfs`): the state in which `FileSys` starts
  (`FileRuns.Mount`).
- **The buffer cache and the disk queue** (`BufferCache`), as a state machine over processes,
  interrupts, delayed writes, read-ahead and eviction: a `bread` returns what was last
  written. `CacheCalls` says what each call comes to, and that `bflush` brings the disk up to
  date. `CacheView` shows that one process's calls are the operations on a plain disk that
  `FileSystem` uses. `BufferLists` does the pointer work of the cache's lists and of the
  driver's queue.
- **Resource maps** (`ResourceMap`, `MapRuns`): the in-place array of `malloc` and `mfree`
  against sets of units.
- **Processes** (`Processes`, `Lives`, `ForkRuns`): images in core, on the swap area and in
  transit; `newproc`, `sched`, `exit` and `wait`, as a state machine, and what each leaves.
- **Pipes** (`Pipe`, `PipeCalls`, `PipeOrder`), as a state machine over any number of readers,
  writers, closes, duplicated descriptors and signals.
- **Callouts** (`Callout`): the array of time differences against a list of requests.
- **Terminal input** (`Clist`, `Tty`): character queues in chained blocks, line editing.
- **The editor** (`Patterns`, `Matcher`, `Compile`, `Spelling`, `LineStore`): regular
  expressions from their text to the leftmost greedy match, and the line store.
- `Wrappers` has what several of these need.

A pointer into an array, a buffer or a table is an index. A queue of requests, a process
table or a cache whose steps interleave is a datatype with one function for a step; what the
source updates in place on its own is a class whose methods are proved against functions.

Some laws do not hold without a condition, and then the condition is proved exact:

- `bmap` leaves a file pointing to a block with stale contents when the free list runs out
  between its pointer block and what that block is for: `FileSystem.FileSys.Bmap` says for
  which sizes of the free list, `BlockTree.StaleExactly` what the file then reads, and
  `FileRuns.RunsOut` is a case of it with contents that are not zero.
- The two-word compare and shift of `dmr/pc.c` are right exactly for offsets less than 2^31
  apart, and below 2^25: `Machine.DpcmpExact`, `Machine.BlockNumberExact` and, for what
  `readi` makes of it, `Machine.OffsetsWrap`.
- A clock tick brings every deadline nearer by one only when no entry in front has a negative
  time, which `timeout` does not refuse: `Callout.DropsByOneExactly`.
- A fork that finds room neither in core nor on the swap area leaves a child that sleeps in
  its parent's image (`Processes.WantingChild`). Memory stays in order exactly as long as
  `sched` does not swap out such a child (`Processes.RunInv`, `Processes.SwapOutExactly`);
  when it does, the parent's image is given away (`Processes.StuckChild`), and there are runs
  in which that happens (`ForkRuns.SomeForkLosesAnImage`).
- The last close of an end of a pipe unlocks it, whoever has the lock, because `iput` calls
  `prele`. That may be a process inside the pipe, or `update`, which locks the inode to write
  it. When the last writer closes, every continuation gives the bytes in order and none twice
  if and only if at that time the pipe is not locked, or there is nothing to read or nobody
  to read it, or one process alone may read and its call takes all: `PipeOrder.LastCloseExactly`;
  `PipeOrder.OneByteTwice` is a run in which one byte comes out twice. Up to that close, and
  in every run in which it is harmless, bytes are kept (`PipeOrder.BytesAreKept`); the other
  results hold in every run.

## Model

| member | source | states |
|---|---|---|
| Machine.DpcmpExact | dmr/pc.c:107-119 | the two-word comparison has the sign, and the clamped value, of the true difference if and only if that difference fits in 32 bits; it is 0 only for equal offsets |
| Machine.BlockNumberExact | dmr/pc.c:131-139 | the shifted offset is the logical block number exactly below 2^25, and there one of the 32768 of a file exactly below 2^24, where also the stored size is the offset |
| Machine.OffsetsWrap | ken/rdwri.c:30-36 | an offset is taken to be before the end exactly when it is, or is more than 2^31 behind the end; and then the block number is wrong |
| FreeChain.ChainPop | ken/alloc.c:45-60 | taking the top entry leaves a well-formed list for the rest of the chain |
| FreeChain.ChainReload | ken/alloc.c:60-71 | the link block itself is the last of its list, and its table is a well-formed list for the rest |
| FreeChain.ChainEmpty | ken/alloc.c:52-58 | the list says it is exhausted exactly when no block is left |
| FreeChain.ChainPushFull | ken/alloc.c:105-113 | a full list written into the freed block is the rest of a chain that starts with that block |
| FileSystem.FileSys.constructor | ken/alloc.c:13-32 | the list of a fresh file system makes every data block free and no file have any |
| FileSystem.FileSys.Alloc | ken/alloc.c:45-82 | gives the head of the chain in a zeroed buffer, or ENOSPC exactly when the chain is empty |
| FileSystem.FileSys.Free | ken/alloc.c:89-118 | the block becomes the head of the chain, no other block changes; a block outside the area is ignored |
| FileSystem.FileSys.ConvertToLarge | ken/subr.c:29-49 | succeeds exactly when a block is free, and every logical block keeps its physical block |
| FileSystem.FileSys.Bmap | ken/subr.c:11-114 | the block is the file's own; succeeds exactly when the free list has as many blocks as are needed, takes that many, changes no other mapping of any file, sets the read-ahead block exactly, says when it damages the file, and marks the inode when it changes it, but for the conversion of a small file for one of its first 256 blocks |
| BlockTree.MapInjective | ken/subr.c:11-114 | two places of two files' block maps never have the same block |
| BlockTree.ConvertedSound | ken/subr.c:31-46 | the conversion to large keeps the ownership of every block |
| BlockTree.ConvertedKeeps | ken/subr.c:31-46 | ... and every file's map |
| BlockTree.LinkSlotSound | ken/subr.c:29-62 | a new block put into the inode belongs to that place alone |
| BlockTree.LinkWordPtr | ken/subr.c:62-113 | a word put into a pointer block changes that pointer and no other |
| BlockTree.StaleExactly | ken/subr.c:70-109 | after running out in mid-tree, with stale contents in place of a zeroed pointer block, no assignment of owners is sound unless those contents are zero |
| UserIo.User.Iomove | ken/rdwri.c:150-179 | moves exactly n bytes between buffer and user area and advances base, count and offset by n, whichever of the word and byte ways it takes |
| UserIo.User.CopyWords | dmr/pc.c:79-90 | the word copy copies the bytes |
| FileSystem.FileSys.Writei | ken/rdwri.c:66-109 | the file is the flat array with the written bytes in place; other files are unchanged; never fails with enough free blocks; the inode is marked |
| FileSystem.FileSys.Readi | ken/rdwri.c:13-54 | up to 2^31 behind the end, the user gets the bytes of the flat array, cut at its end, zeros in holes; further out a read of any bytes gives some, or an error; no file changes |
| FileSystem.FileSys.ReadChunk | ken/rdwri.c:43-53 | one pass gives the block's bytes, and asks for the next block ahead exactly when the file is read in sequence |
| FileSystem.FileSys.WriteBlock | ken/rdwri.c:73-108 | one pass overlays exactly its part of the bytes, whether the block is read first or, when all of it is written, not; it fails only without room or past the last block, and then no file has changed |
| FlatFile.OverlayIsFlatWrite | ken/rdwri.c:66-109 | what the passes leave in the blocks is the flat write, holes before it included |
| FlatFile.BytesAreFlatRead | ken/rdwri.c:13-54 | what the passes read is the flat read |
| FlatFile.OthersContents | ken/rdwri.c:66-109 | a step that keeps the other files' blocks and sizes keeps their contents |
| FileRuns.ReadAfterWrite | ken/rdwri.c:13-109 | reading what was written gives it back |
| FileRuns.HolesAreZero | ken/rdwri.c:13-109 | a gap left by writing beyond the end reads as zeros |
| FileRuns.Run | ken/sys2.c:30-60 | any sequence of operations on any files: results and final files are those of flat arrays; after a failed allocation that damages no file, those with a first part of the operation done |
| FileSystem.FileSys.Itrunc | ken/iget.c:153-186 | every block of the file is freed once, no other file changes, the free chain has grown by exactly the file's blocks; pointer blocks are read before they are freed and no buffer is asked for that is held |
| FileRuns.RunsOut | ken/subr.c:11-114 | block 256 of an empty file, with two blocks free and the last one not zero: the file is left with its old contents for a pointer block, and no account of owners is sound |
| Truncate.TruncatedDone | ken/iget.c:162-185 | when the loops end, nothing of the tree is left and everything that was in it is free |
| Truncate.EntryStep | ken/iget.c:166-177 | each step of the descending loops takes exactly one pointer off what is left of the tree |
| Mkfs.Filsys.Bfree | tools/mkfs.c:474-488 | the block goes in front of a chain of the kernel's form |
| Mkfs.Filsys.Interleave | tools/mkfs.c:541-552 | the interleave is a permutation for every step and every size from 1 to 100, in which each number is a step behind the one before it, or the first one left from there |
| Mkfs.GroupSpacing | tools/mkfs.c:541-567 | blocks of a group that are given out one after the other are a step apart, modulo the size of the group, where that place was left |
| Mkfs.Filsys.Bflist | tools/mkfs.c:536-568 | the list is one the kernel accepts, its blocks are exactly those of the data area, and their order is the interleave in groups, with what is left at both ends in order |
| FileRuns.Mount | tools/mkfs.c:536-568 | the list that mkfs makes is one that the kernel's file system starts from, with every data block free |
| BufferCache.StepInv | dmr/bio.c:50-317 | every step of every process, and every interrupt, keeps lists, ownership, contents and sleepers in order |
| BufferCache.RunInv | dmr/bio.c:50-442 | so does every run |
| BufferCache.BootedInv | dmr/bio.c:338-368 | binit makes a state that is in order |
| BufferCache.BreadReturns | dmr/bio.c:50-97 | when bread or breada returns, the process alone has a buffer of the block asked for, with the data last given to bwrite, bawrite or bdwrite for it, whatever happened in between |
| BufferCache.GetblkReturns | dmr/bio.c:209-263 | the process alone has a buffer of the block asked for; if valid, its contents are current |
| BufferCache.LogicalIsLastWritten | dmr/bio.c:103-153 | the contents of a block change only by a write of it |
| BufferCache.DiskUpToDate | dmr/bio.c:427-442 | with nothing delayed and nothing queued, the disk has every block as last written |
| CacheCalls.GetTurns | dmr/bio.c:217-262 | one pass of getblk: the block's buffer is taken if free and slept for if busy; without one, the first available buffer is taken, after its delayed write has been started, or any is slept for |
| CacheCalls.BreadTurns | dmr/bio.c:54-62 | bread starts to read a block that is not valid, and returns one that is |
| CacheCalls.WaitTurns | dmr/bio.c:269-279 | iowait sleeps until the request is finished; then the call ends, after bwrite with the buffer available |
| CacheCalls.BrelseEnds | dmr/bio.c:158-181 | the buffer becomes the last available one |
| CacheCalls.FlushStarts | dmr/bio.c:427-442 | a pass of bflush gives one delayed write of the device to the driver, as long as there is one |
| CacheCalls.FlushRun | dmr/bio.c:427-442 | each pass leaves one delayed write fewer, whatever the disk finishes in between |
| CacheCalls.FlushReachesDisk | dmr/bio.c:427-442 | after as many passes as there are available buffers, and with the queue empty, the disk has every block of the device as last written, unless a process holds a delayed write |
| CacheCalls.FlushedToDisk | dmr/bio.c:427-442 | there is such a run from every state |
| CacheCalls.BwriteReturns | dmr/bio.c:103-120 | when bwrite returns, the disk has the block as last written, and the buffer is available |
| CacheCalls.BwriteStarts | dmr/bio.c:103-116 | bwrite gives the buffer to the driver and waits |
| CacheCalls.BawriteStarts | dmr/bio.c:146-153 | bawrite gives it to the driver and does not wait |
| CacheCalls.BdwriteDelays | dmr/bio.c:128-140 | bdwrite gives the driver nothing; the buffer is available with its write delayed |
| CacheCalls.BreadaStarts | dmr/bio.c:68-81 | breada gets the block asked for first, unless it is in core |
| CacheCalls.BreadaReads | dmr/bio.c:76-80 | its read is started when it is not valid |
| CacheCalls.BreadaChecks | dmr/bio.c:82-96 | the read-ahead block is got exactly when it is not in core; then the block asked for is waited for, or read as by bread |
| CacheCalls.ReadAheadStarts | dmr/bio.c:83-92 | the read-ahead is started when the block is not valid, and nobody waits for it |
| BufferCache.FirstInFirstOut | dmr/rk.c:14-40 | requests are finished one by one in the order they were given |
| BufferCache.PastTheEnd | dmr/bio.c:16 | the word behind the 512 bytes of a buffer is always zero |
| BufferCache.NobodyForgotten | dmr/bio.c:158-181 | with nothing queued and every buffer released, no process sleeps |
| BufferCache.GetPassInv | dmr/bio.c:217-262 | one pass of getblk keeps the invariant: taking, waiting, evicting and reassigning |
| BufferCache.InterruptInv | dmr/rk.c:75-87 | so does the interrupt, for requests that a process waits for and those that nobody waits for |
| CacheView.GetblkShows | dmr/bio.c:209-263 | from one call of getblk by a process to its return, while no other process writes that device, the disk it sees stays, the block is added to those it holds, and the buffers it held are as they were |
| CacheView.BreadShows | dmr/bio.c:50-97 | so for bread and breada, and the buffer has the block's contents on that disk |
| CacheView.BwriteShows | dmr/bio.c:103-153 | so for bwrite, bawrite and bdwrite: the block gets the buffer's contents and is held no longer |
| CacheView.BrelseShows | dmr/bio.c:158-181 | so for brelse: the block is held no longer, and the disk stays |
| CacheView.OthersShow | dmr/bio.c:50-317 | between its calls, other processes and interrupts change neither what it sees nor the buffers it holds |
| CacheView.StoreShows | dmr/bio.c:50-317 | what it stores into a buffer changes that buffer alone and not the disk it sees |
| CacheView.ReadAlone | dmr/bio.c:50-64 | with the disk idle and a clean buffer first on the list, five steps are such a call |
| CacheView.WriteAlone | dmr/bio.c:103-120 | with the disk idle, three steps are such a call for any buffer that the process holds |
| BufferLists.UnlinkRing | dmr/bio.c:285-297 | the two pointer stores take exactly one node out of the ring |
| BufferLists.RemovedIsWithout | dmr/bio.c:285-297 | what is left is the list that the cache model has then |
| BufferLists.AppendRing | dmr/bio.c:172-179 | the stores of brelse add a node at the end of the ring |
| BufferLists.PushRing | dmr/bio.c:254-259 | the stores of getblk add a node at the front of the ring |
| BufferLists.RingUnique | h/buf.h:1-20 | the pointers determine the list |
| BufferLists.Dequeue | dmr/rk.c:81-84 | following the link of the head gives the rest of the queue |
| BufferLists.BufferPool.constructor | dmr/bio.c:338-368 | all buffers are available, in order, on the ring of no device |
| BufferLists.BufferPool.Notavail | dmr/bio.c:285-297 | takes the buffer out of the available list; the queue threaded through the same pointers stays |
| BufferLists.BufferPool.Brelse | dmr/bio.c:158-181 | puts the buffer at the end of the available list |
| BufferLists.BufferPool.Relink | dmr/bio.c:253-261 | the buffer is on the ring of its new device and on no other |
| BufferLists.BufferPool.Incore | dmr/bio.c:187-199 | finds the buffer of a block if and only if there is one |
| BufferLists.BufferPool.Strategy | dmr/rk.c:14-40 | the request goes to the end of the queue |
| BufferLists.BufferPool.Intr | dmr/rk.c:75-87 | the head of the queue is finished, and its link is read before brelse overwrites it |
| ResourceMap.ResMap.Malloc | ken/malloc.c:25-43 | takes exactly the front of the first run that is large enough; 0 exactly when there is none |
| ResourceMap.ResMap.Mfree | ken/malloc.c:51-82 | adds exactly the units given back, joined on both sides, and the array stays zero in size behind its end |
| ResourceMap.TakenUnits | ken/malloc.c:25-43 | the free units are those before but the ones taken, and the map stays sorted and coalesced |
| ResourceMap.GivenUnits | ken/malloc.c:51-82 | the free units are those before and the ones given, and the map stays sorted and coalesced |
| ResourceMap.CanonicalUnique | ken/malloc.c:13-82 | the free units determine the map |
| ResourceMap.FreeUndoesAlloc | ken/malloc.c:25-82 | freeing what was just allocated restores the same map |
| MapRuns.RunPartition | ken/malloc.c:25-82 | over any run of requests, free units and pieces held partition the area |
| MapRuns.FewRuns | ken/malloc.c:13-17 | the map never has more runs than pieces held, plus one |
| Processes.NewPid | ken/slp.c:350-361 | the search ends, with a positive number that no process or zombie has and the first free entry |
| Processes.FreshPidFirst | ken/slp.c:348-357 | it is the first number after the last one that nobody has |
| Processes.RunInv | ken/slp.c:135-435 | every run of forks, exits, waits, swaps, sleeps and wakeups in which no child without an area is swapped out keeps the invariant |
| Processes.EverythingAccounted | ken/main.c:74-75 | every page of core and every swap block is free, or in exactly one image, zombie's block or transfer |
| Processes.RunnersApart | ken/slp.c:247-317 | no two processes that swtch may resume have a page in common |
| Processes.RunnerOwnsImage | ken/slp.c:293-316 | a process that swtch may resume owns the image at its address, or is a child being copied whose parent cannot be resumed |
| Processes.ForkMemory | ken/slp.c:392-433 | newproc keeps the partition: into core, onto the swap area, and without room |
| Processes.RetryMemory | ken/slp.c:416-421 | so does its next try for an area |
| Processes.SwapOutDoneMemory | ken/text.c:14-35 | so does the end of a swap-out |
| Processes.SwapInDoneMemory | ken/slp.c:221-231 | and of a swap-in |
| Processes.ExitDoneMemory | ken/sys1.c:198-207 | exit hands its block to the zombie and gives its image back |
| Processes.ReapDoneMemory | ken/sys1.c:247-256 | wait gives the zombie's block back |
| Processes.NoZombieLost | ken/sys1.c:204-282 | a zombie's parent is alive, is not asleep in wait, and finds a zombie when it looks |
| Lives.WaitFinds | ken/sys1.c:234-284 | wait takes a zombie child if there is one, sleeps if there are only other children, and returns if there is none |
| Lives.ReapFrees | ken/sys1.c:247-267 | then the zombie's entry, number and block are free, and nothing else changes |
| Lives.ZombieIsReaped | ken/sys1.c:234-284 | in every run, whatever happens in between, a wait by a process with a zombie child frees the entry of one |
| Lives.WaiterHasChild | ken/sys1.c:279-283 | a process that waits has a child, so wait returns an error only on its first look |
| Lives.ForkMakes | ken/slp.c:342-435 | a fork makes one free entry a child of the caller with a number of its own; in core it has an image at once, and otherwise its parent does not run |
| Lives.RetryFinds | ken/slp.c:416-420 | a child without an area gets one exactly when there is room, and else sleeps again |
| Lives.CopyMakes | ken/slp.c:421-423 | after the copy the child has its image on the swap area, and the parent runs |
| Lives.ExitLeaves | ken/sys1.c:198-224 | exit leaves a zombie with its block; its pages are free, its children are those of init, its parent and init are awake |
| Lives.SwappedOut | ken/slp.c:213-219 | a process swapped out has its image on the swap area, and its pages are free |
| Lives.SwappedIn | ken/slp.c:225-237 | one swapped in has it in core and can run, and its blocks are free |
| Lives.WokenRuns | ken/slp.c:61-90 | a sleeper woken up is as before it slept; one asleep in wait that gets a signal leaves the call |
| Lives.LifeLeavesNothing | ken/sys1.c:182-314 | fork, exit and wait leave memory and process table as they were, but that init may be awake |
| Processes.PidsDiffer | ken/slp.c:348-377 | process numbers are positive and differ |
| Processes.WantingChild | ken/slp.c:407-420 | a fork leaves its child asleep in the parent's image, without SLOCK, if and only if there is room neither in core nor on the swap area |
| Processes.StuckChild | ken/slp.c:190-219 | swapping out such a child, asleep or ready, frees the pages at which its parent's image still is |
| Processes.SwapOutExactly | ken/slp.c:190-219 | a swap-out leaves memory in order if and only if it does not take such a child |
| ForkRuns.SomeForkLosesAnImage | ken/slp.c:190-420 | there is a run from the start, in order up to its last two steps, in which that happens |
| Pipe.RunInv | ken/pipe.c:55-214 | every interleaving of reads, writes, closes, signals and `update` (ken/alloc.c:280-311) keeps the invariant: with both ends open only the process that has the lock is inside, and there are never two writers inside |
| Pipe.NothingIsSkipped | ken/pipe.c:55-178 | in every run, what comes out went in, nothing before the place where reading goes on is skipped, and never more than 4096 bytes are in the file |
| Pipe.WritersAreServed | ken/pipe.c:113-178 | what has gone in from a process is what it has written, in order |
| Pipe.CompletedWrite | ken/pipe.c:129-134 | a write that returns normally has put in all its bytes |
| Pipe.NobodyIsStuck | ken/pipe.c:91-96 | while unlocked, a sleeping reader means an empty pipe and a sleeping writer a full one, with both ends open; both are never asleep together and no close is missed |
| Pipe.LockIsReleased | ken/pipe.c:185-214 | whoever has the lock, a process inside or `update`, can always go on |
| Pipe.ClosingInv | ken/fio.c:36-81 | a close keeps the invariant, also when it is the last one of an end and takes the lock from whoever has it (ken/iget.c:86-105) |
| PipeCalls.ReadTurns | ken/pipe.c:55-110 | a read sleeps for the lock; with it, it goes in where there is something to read, sleeps for data on an empty pipe with both ends open, and else returns with nothing |
| PipeCalls.ReadTakes | ken/pipe.c:106-110 | a reader inside gets bytes with every block and goes on until it has all it asked for or is at the end |
| PipeCalls.WriteTurns | ken/pipe.c:113-178 | a write sleeps for the lock; with it, it returns when all is written, fails when an end is closed, sleeps on a full pipe, and else goes in for as much as there is room for |
| PipeCalls.WritePuts | ken/pipe.c:163-178 | a writer inside puts in the next bytes of its data; when it leaves, nobody sleeps for data |
| PipeCalls.EndOfFile | ken/pipe.c:91-94 | in every run, a read of something that returns with nothing has read all, and nobody has the pipe open for writing |
| PipeCalls.BrokenPipe | ken/pipe.c:141-146 | in every run, a write fails only when nobody has the pipe open for reading |
| PipeCalls.Interrupts | ken/pipe.c:91-178 | a signal takes a process out of its sleep and its call, and changes nothing else |
| PipeCalls.CloseTakes | ken/fio.c:36-81 | a close takes one descriptor and gets everybody who sleeps for data or space to look again; the lock goes exactly with the last descriptor of an end |
| PipeCalls.DupAdds | ken/sys3.c:58-70 | a duplicate is one more reference to the same end |
| PipeOrder.StepExact | ken/pipe.c:55-214 | every step keeps the bytes in order, but for a last close for writing with the pipe locked, something to read and somebody to read it, unless one process alone may read and its call takes it all |
| PipeOrder.BytesAreKept | ken/pipe.c:55-178 | in every run without a close of that kind, bytes written are bytes read followed by what is in the file, in blocks 0 to 7 |
| PipeOrder.TwoReaders | ken/fio.c:36-81 | after a close of that kind there is a continuation in which bytes do not come out in order |
| PipeOrder.LastCloseExactly | ken/iget.c:86-105 | after the last close for writing, in any run, every continuation is in order if and only if the pipe was not locked, or there was nothing to read or nobody to read it, or one process alone could read and its call takes all |
| PipeOrder.OneByteTwice | ken/iget.c:86-105 | a run of eleven steps in which one byte goes in and comes out twice |
| Callout.UptoAdded | ken/clock.c:138-154 | a new entry at any place changes no other deadline |
| Callout.TimeoutDeadlines | ken/clock.c:128-156 | timeout makes a deadline of the delay and changes no other, whatever the delay, negative ones included |
| Callout.AddedDelta | ken/clock.c:128-156 | the new entry is behind those due no later |
| Callout.TickedDelta | ken/clock.c:35-38 | one decrement lowers every positive deadline by one |
| Callout.ServedOnceAtItsTime | ken/clock.c:33-65 | each request is served once, at its tick, in order of time and, for equal times, of request |
| Callout.DropsByOneExactly | ken/clock.c:35-65 | with entries of negative time, exactly when a tick still lowers the other deadlines by one |
| Callout.Callouts.Timeout | ken/clock.c:128-156 | the entry is put in front of the first later one, for any delay; if that is not negative, the array stands for the old requests and the new one, also while functions are being called |
| Callout.Callouts.Clock | ken/clock.c:33-65 | one tick serves what is due, with calls of timeout from the functions called, and drops what was served |
| Clist.GetText | dmr/tty.c:561-595 | getc takes the first character, across blocks |
| Clist.PutText | dmr/tty.c:597-639 | putc adds a character at the end, in the last block |
| Clist.PutBlockText | dmr/tty.c:615-628 | ... and in a new block |
| Clist.CharQueues.constructor | dmr/tty.c:161-171 | all queues are empty, and all blocks free, but one if the table does not start at a multiple of 8 |
| Clist.CharQueues.Getc | dmr/tty.c:561-595 | removes the first character of one queue, or returns -1 for an empty one; other queues stay, and queues and free list partition the blocks |
| Clist.CharQueues.Putc | dmr/tty.c:597-639 | appends one character to one queue and fails exactly when its last block and the free ones have no room, and then changes nothing |
| Tty.EraseTakesBack | dmr/tty.c:228-232 | an erase cancels the character before it |
| Tty.KillForgets | dmr/tty.c:233-234 | a kill cancels the line so far |
| Tty.EscapeEnters | dmr/tty.c:237-242 | a backslash before a special character enters it |
| Tty.OrdinaryLine | dmr/tty.c:221-247 | ordinary characters are the line |
| Tty.EraseDrops | dmr/tty.c:228-232 | an erase takes back the last character of the line, and nothing from an empty one |
| Tty.EotIsDropped | dmr/tty.c:235-236 | the end of file character is no part of a line |
| Tty.EndOfFileIsEmpty | dmr/tty.c:221-236 | alone, it is an empty line |
| Tty.RawIsAll | dmr/tty.c:227-247 | in raw mode every character is entered |
| Tty.EscapeMaps | dmr/tty.c:238-242 | without small letters, a backslash and a character enter what the table has for it |
| Tty.BackslashStays | dmr/tty.c:237-247 | before a character that it does not escape a backslash is entered, and that character too, special or not |
| Tty.TwoBackslashes | dmr/tty.c:238-242 | two backslashes before one that it does enter a backslash and that character |
| Tty.LineComesThrough | dmr/tty.c:219-254 | the characters up to a delimiter are the line, and those behind it stay |
| Tty.ArrivingIs | dmr/tty.c:270-288 | a character loses its parity bit; carriage return and capitals change as the modes say; a delimiter follows newline, end of file and, in raw mode, everything |
| Tty.CutIsEdited | dmr/tty.c:221-250 | a line too long for the buffer is taken as far as the buffer is full, and that is the edited form of the characters taken |
| Tty.Terminal.Input | dmr/tty.c:263-289 | the raw queue gets the character and a delimiter where one is due, counted modulo 256, as far as there is room, and the other queues stay; or all three are flushed |
| Tty.Terminal.Canon | dmr/tty.c:204-254 | the line goes to the canonical queue as erase, kill and escapes make it, as far as there is room, and its delimiter is counted off; of a line too long for the buffer, the rest stays in the raw queue |
| Tty.Terminal.TypeInto | dmr/tty.c:227-247 | the pointer work on the line buffer is the step of the editing function, and never goes below the buffer's start |
| Tty.Terminal.Flush | dmr/tty.c:181-196 | empties the three queues of the terminal and no other |
| Patterns.FindMeaning | usr/ed.c:1218-1300 | backtracking finds a match if and only if there is one, and the one in which every starred item in turn is longest |
| Patterns.GreediestUnique | usr/ed.c:1218-1300 | there is only one such match |
| PatternCode.EncodeIsCoded | usr/ed.c:1059-1163 | the bytes stored for a list of items are read back as that list |
| Matcher.Matcher.Cclass | usr/ed.c:1302-1318 | membership in a set or its complement; never for the end of the line |
| Matcher.Matcher.Star | usr/ed.c:1285-1294 | tries the rest from the longest repetition down |
| Matcher.Matcher.Advance | usr/ed.c:1218-1300 | succeeds exactly when the search does; loc2 and the brackets describe the match found, whatever failed tries stored |
| Matcher.Matcher.ScanFor | usr/ed.c:1193-1206 | the first-character loop finds the same first place as the general one |
| Matcher.Matcher.Execute | usr/ed.c:1170-1216 | succeeds if and only if some place of the line matches; loc1 is the leftmost, the match is the greediest there |
| Spelling.CompiledExactly | usr/ed.c:1059-1163 | a text is compiled to a pattern if and only if it spells that pattern, by a grammar of the texts of items, and the code fits |
| Spelling.FailedExactly | usr/ed.c:1075-1079 | the pattern in force is taken again exactly for an empty text; an error leaves the code so far exactly where a star follows a bracket |
| Spelling.PlainIsItself | usr/ed.c:1158-1161 | a text of ordinary characters is compiled to those characters |
| Spelling.CompileInvertsText | usr/ed.c:1059-1163 | every pattern in which brackets are in order has a text that is compiled to it |
| Compile.CompiledIsGood | usr/ed.c:1059-1163 | what is compiled fits the buffer, has each bracket once, and closes only brackets that are open |
| Compile.Compiler.Compile | usr/ed.c:1059-1168 | the code buffer holds the code of the pattern found, is unchanged for an empty pattern, is cleared after an error, or after a star on a bracket holds the code up to that bracket |
| LineStore.AddressOf | usr/ed.c:767-768 | a line pointer and the same pointer with the mark bit name the same place |
| LineStore.SpaceLeast | usr/ed.c:756 | the next line starts at the first multiple of four bytes behind this one |
| LineStore.StoredStay | usr/ed.c:733-758 | what is written behind the last line changes none |
| LineStore.Store.Getblock | usr/ed.c:760-791 | the buffer has the block asked for, in file, input block or output block; nothing written is lost |
| LineStore.Store.Getline | usr/ed.c:715-731 | gives the line stored for the pointer, marked or not, across blocks; no line changes |
| LineStore.Store.Putline | usr/ed.c:733-758 | stores the line up to a newline under a new pointer and keeps all others; succeeds exactly when the file has room for it, and else changes none |

## Left out

- FileSystem.FileSys.Writei: two system calls on one inode at a time are not modelled, because `rdwr` takes no inode lock and then promises nothing.
- FileSystem.FileSys.Readi: which bytes come from more than 2^31 behind the end, where the two-word compare overflows (`Machine.OffsetsWrap`), is not said; sizes are below 2^24, the width of the two size fields.
- UserIo.User.Iomove: the user area is an array that the transfer lies in; failing user memory accesses are not modelled.
- FileSystem.FileSys.Bmap: what a file does after it was damaged is not modelled.
- FileRuns.Run: a run stops at the first operation that fails, and another run can go on from there unless a file is damaged.
- CacheView.BwriteShows: the operations of `FileSystem.FileSys` on the cache are matched one by one; that other processes do not write the same device meanwhile is taken as given.
- BufferCache.Enabled: a process must write a valid buffer that it has changed before it releases it. One caller does not: `bmap`, when its second `alloc` fails, releases the pointer block's buffer that `clrbuf` has changed (ken/subr.c:85, 109), and that buffer is valid when the free block was still in the cache.
- BlockTree.StaleExactly: in that case reads give zeros until the buffer is reassigned, and only then the stale contents, which the model (`FileSystem.FileSys.Stale`) has at once.
- I/O errors, `swap`, `physio` and raw disk access, which bypass the cache, are not modelled.
- BufferLists.BufferPool.constructor: the device rings are made empty before the buffers are freed, not after.
- Blocks: the superblock's lock `s_flock` and the copying of superblocks by `update` are left out.
- Processes.Enabled: an exit that finds no block, which panics, and an exit of process 1 are excluded.
- Processes.Apply: which process `swtch` or `sched` takes is left open, so priorities and ages are not modelled; stopping for `ptrace`, text segments and the contents of images are left out.
- Pipe.Closed: when no reference is left, the file is truncated and its inode freed; the model keeps its contents, which nobody can reach.
- Pipe.WriteChunk: `writei` is taken to succeed; when the disk is full, `writep` has already counted bytes that do not go in.
- Tty.Terminal.Input: echo, signals and wakeups are left out; so is the sleep of `canon`.
- Compile.CompileText: zero bytes in the text of a pattern, which pushback would lose, are excluded.
- Matcher.Matcher.Execute: for a repeated search the line is the one in which `loc2` points; `dosub` is not modelled.
- LineStore.Store.Putline: the line buffer holds an end within its 512 bytes.
- Callout.Callouts.Timeout: the array has room. After a negative delay only the entries are described, not what they stand for (see `Callout.TimeoutDeadlines` and `Callout.DropsByOneExactly`).
- `namei`, directories, mounts, permissions, `exec`, signals, device special files, `ialloc`, `iget` and `iput` are left out: they would add case analysis.
- The drivers for IDE, serial line, keyboard and timer, the assembly code, and the other commands are left out.
