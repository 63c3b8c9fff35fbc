# xv6: machine-checked models of its hard parts

xv6 is a small Unix for RISC-V. This copy has a multi-level feedback queue (MLFQ) scheduler added to it. The Dafny
files here model the parts of the kernel and of three user programs that are hardest to get right, in the form the
C code has: classes with the C structures' fields, methods with the C functions' branches, loops and error returns.
Each method is proved against a specification function or predicate, and what the system promises is proved about
those. `dafny verify dfyconfig.toml` checks everything.

- **Storage.** `Blocks`, `BufferCache` and `CacheUse` are the buffer cache of bio.c with its linked ring. `GroupCommit`
  is the admission protocol of log.c over all interleavings, `Recovery` the disk format and crashes, `LogState` and
  `Log` the log on top of the cache. A disk is a sequence of blocks, one block write is atomic, every image the disk
  has had is kept in a history, and a crash may come between any two writes. `Inodes`, `Ownership`, `FileChanges`,
  `FileBytes` and `FileSystem` are the bitmap, inodes and block maps of fs.c and filewrite of file.c, over the logical
  disk that cache and log provide. `FileLog` joins the two: the log takes every log_write of fs.c, and whatever a crash
  leaves, recovery finds the flat files of the last committed group of operations. A commit is interleaved with any
  breads and brelses by other processes between its writes.
- **Memory.** `PageTables`, `PageChanges`, `UserMemory` and `VirtualMemory` are vm.c and kalloc.c. Physical memory is
  an array of pages of 64-bit words; page tables are read and written there, following section 4.4 (Sv39) of the
  RISC-V Privileged Architecture. The free list runs through the pages themselves. A ghost map says what each page is
  for. `ProcTables` makes and frees the page table of a process. `FreeList` and `UserMalloc` are the allocator of
  umalloc.c, with block headers in memory.
- **Processes.** `LinkedQueues`, `Feedback` and `MlfqScheduler` are the MLFQ scheduler on one CPU, `Turns` what one
  iteration and whole runs of it do to processes and queues, `StrayIndex` two runs. `ProcessLife` and `Reaping` are
  fork, exit, wait, sleep and wakeup as interleaved steps, each between two lock operations; `Lifetimes` and `LifeCycle`
  say of whole runs what the calls that were made bring about.
- **Devices and programs.** `DiskQueue` and `VirtioDisk` are the descriptor protocol of the virtio disk driver (sections
  2.6 and 5.2 of Virtual I/O Device Version 1.1) against an arbitrary device. `Pipe` is the pipe, `Grep` the regular
  expression matcher of grep. `ShellGrammar` and `ShellParser` are the parser of sh, `ShellTyped`, `ShellLexing` and
  `ShellText` the command language it accepts.

Panics are part of the model where they can happen: the no-buffer panic of bget is a result that every log operation
passes on (`ok == false`), with crash safety still proved of what is on disk by then, and each says from the state
before it when that can and when it cannot come. log_write's panics are characterised exactly. The panics of bfree,
free_desc, free_chain and freewalk are proved unreachable.

## Findings about the code

These are stated as lemmas and methods; the models follow the code.

- A full log cannot commit: NBUF equals LOGSIZE, so thirty logged blocks pin all thirty buffers, and the commit panics
  with "bget: no buffers" before it has written anything (`FullLog.FullLogCannotCommit`). `Log.Log.EndOp` has the exact
  condition: with nobody breading meanwhile the commit of a non-empty log goes through if some buffer is unreferenced
  when it begins, and panics if none is.
- begin_op counts blocks that operations at work have logged both in the header and in their reservation, so one can be
  made to wait although it would fit (`GroupCommit.RefusedThoughItFits`). Nobody waits for nothing: with nobody at work
  there is room (`GroupCommit.RefusedOnlyWhenBusy`).
- log_write tests for a full header before it looks whether the block is already there, so it can panic on a block that
  needs no room (`GroupCommit.FullHeaderPanics`). It panics exactly when the header is full
  (`GroupCommit.PanicsExactly`), which an operation with budget left never meets (`GroupCommit.RoomLeft`).
- rr_index is reduced by one round's number of candidates and used on the next round's, which may be fewer: four
  processes that never sleep get there in six iterations (`StrayIndex.IndexCanStray`). It happens exactly when no
  process is held, more than one is a candidate, and rr_index is not below their number
  (`MlfqScheduler.Scheduler.Iterate`). The read stays inside the array, past the entries that are set
  (`Feedback.IndexInTable`).
- A held process that goes to sleep or exits before its quantum is used up is run again by every iteration
  (`Feedback.SleeperIsRunAgain`, reached in `StrayIndex.SleeperIsReached`); `Feedback.DispatchesRunnable` gives the
  exact condition for the dispatched process to be runnable.
- A pipe writer that is killed after writing some bytes returns without waking readers. `Pipe.Pipe.WriteTurn` says for
  which arguments that leaves a reader asleep beside bytes it could read, `Pipe.ReaderLeftAsleep` is such a run, and
  `Pipe.NextWriteWakes` is how it goes on. Order, ring bound and outcome of every call are proved from such states too.
- writei copies into a cached block before it knows whether the whole piece can be copied. When the user's buffer ends
  in the middle of a block, the bytes before its end change the file, are not counted in the result, and are in a block
  that is not logged (`FileSystem.FaultGoesUnlogged`). `FileSystem.FileSystem.Writei` says when: exactly if some but
  not all bytes can be copied, the first that cannot is not at a block boundary, and the disk is not full before it.

## Model

| member | source | states |
|---|---|---|
| BufferCache.Cache.Binit | project1c/xv6-riscv/kernel/bio.c:37-53 | the doubly linked ring holds every buffer exactly once, next and prev agree, and no buffer holds a block |
| BufferCache.Cache.FindCached | project1c/xv6-riscv/kernel/bio.c:66-73 | the first loop finds the one buffer holding the block, or comes back to the head exactly when there is none |
| BufferCache.Cache.FindFree | project1c/xv6-riscv/kernel/bio.c:77-86 | the second loop finds the unreferenced buffer nearest the tail, that is the least recently released one; the head means that every buffer is referenced |
| BufferCache.Cache.Bget | project1c/xv6-riscv/kernel/bio.c:59-89 | at most one buffer per block, before and after; only a buffer with reference count 0 changes its block; the panic happens exactly when the block is not cached and all buffers are referenced |
| BufferCache.Cache.Bread | project1c/xv6-riscv/kernel/bio.c:93-103 | the buffer returned holds what a reader of the block must see (cached copy, else disk); the reader's view of every block is unchanged |
| BufferCache.Cache.Bwrite | project1c/xv6-riscv/kernel/bio.c:107-112 | the disk has the buffer's contents at its block and is otherwise as it was; one more image joins the history of disk images |
| BufferCache.Cache.Brelse | project1c/xv6-riscv/kernel/bio.c:117-137 | one reference less; on the last one the buffer is the most recently released one, by the code's pointer stores, and all others keep their order; no reader's view changes |
| BufferCache.Cache.Bpin | project1c/xv6-riscv/kernel/bio.c:140-144 | one more pin on this buffer, nothing else |
| BufferCache.Cache.Bunpin | project1c/xv6-riscv/kernel/bio.c:147-151 | one pin less on this buffer, nothing else |
| BufferCache.FrontLinked | project1c/xv6-riscv/kernel/bio.c:124-132 | the six pointer stores of brelse turn the ring into the ring with that buffer first, and touch links only |
| BufferCache.RemoveLinked | project1c/xv6-riscv/kernel/bio.c:126-127 | the first two stores unlink exactly the buffer |
| BufferCache.RecycledKeeps | project1c/xv6-riscv/kernel/bio.c:77-84 | recycling an unreferenced buffer loses nothing: every block still reads the same |
| BufferCache.WrittenKeeps | project1c/xv6-riscv/kernel/bio.c:107-112 | writing a cached block to disk changes no reader's view |
| BufferCache.FilledKeeps | project1c/xv6-riscv/kernel/bio.c:93-103 | changing a held buffer changes what readers of its block see, and of no other block |
| CacheUse.DifferentBuffers | project1c/xv6-riscv/kernel/log.c:73-76 | two blocks read one after the other are in two different buffers, and the second bread does not disturb the first buffer |
| GroupCommit.AlwaysInv | project1c/xv6-riscv/kernel/log.c:126-175 | over every interleaving of begin_op, log_write, end_op and commit: header length plus what each outstanding operation may still add (MAXOPBLOCKS less the entries it has added, absorbed blocks being free) is at most LOGSIZE, committing means none is outstanding, and logged block numbers are distinct |
| GroupCommit.NextKeeps | project1c/xv6-riscv/kernel/log.c:126-175 | each single step keeps that invariant |
| GroupCommit.RoomLeft | project1c/xv6-riscv/kernel/log.c:215-235 | an operation that has added fewer than MAXOPBLOCKS entries never meets a panic of log_write, however many blocks it has logged |
| GroupCommit.FewBlocksFit | project1c/xv6-riscv/kernel/log.c:215-235 | one that has logged fewer than MAXOPBLOCKS different blocks may log any block |
| GroupCommit.LoggedKeeps | project1c/xv6-riscv/kernel/log.c:223-233 | logging a block that is already in the header keeps the invariant even when the budget is used up |
| GroupCommit.PanicsExactly | project1c/xv6-riscv/kernel/log.c:219-222 | exactly when log_write panics: when the header is full, and then every outstanding operation has added all its MAXOPBLOCKS entries |
| GroupCommit.FullHeaderPanics | project1c/xv6-riscv/kernel/log.c:215-235 | a reachable run in which log_write panics although the block it is given is already in the header: the size test comes before the absorption test |
| GroupCommit.AdmissionExactly | project1c/xv6-riscv/kernel/log.c:127-142 | an operation that is admitted never breaks the invariant, and as long as nobody at work has added entries one is refused exactly when admitting it would |
| GroupCommit.RefusedOnlyWhenBusy | project1c/xv6-riscv/kernel/log.c:127-175 | in every interleaving an operation waits only while a commit is under way or others are at work; right after a commit there is room for three |
| GroupCommit.AlwaysQuiet | project1c/xv6-riscv/kernel/log.c:147-175 | in every interleaving the log is empty when nobody is at work and no commit is under way |
| GroupCommit.RefusedThoughItFits | project1c/xv6-riscv/kernel/log.c:133-136 | a reachable run in which begin_op makes an operation wait that would fit: what the others have logged is counted twice |
| Recovery.HeaderRoundTrip | project1c/xv6-riscv/kernel/log.c:87-114 | read_head gives back the list that write_head stored |
| Recovery.HeaderLayout | project1c/xv6-riscv/kernel/log.c:103-114 | where count and block numbers are among the bytes of a written header, least significant byte first |
| Recovery.EmptyHeader | project1c/xv6-riscv/kernel/log.c:117-123 | a disk with an empty header recovers to itself |
| Recovery.RecoveryRestarts | project1c/xv6-riscv/kernel/log.c:117-123 | every image that a crash during recovery can leave recovers to the same disk |
| Recovery.AnyNumberOfRestarts | project1c/xv6-riscv/kernel/log.c:117-123 | so does any number of crashed recoveries in a row |
| Recovery.CrashBeforeCommit | project1c/xv6-riscv/kernel/log.c:194-203 | before the header write a crash loses the whole transaction and nothing else |
| Recovery.CrashAfterCommit | project1c/xv6-riscv/kernel/log.c:194-203 | once the header is written, recovery yields the logical disk |
| Recovery.CommitIsAtomic | project1c/xv6-riscv/kernel/log.c:194-203 | for a crash at any image of a commit, followed by any number of crashed recoveries and one that completes: every home block is old if the header had not been written and new if it had, and blocks that were not logged have their old contents either way |
| Log.Log.WriteLog | project1c/xv6-riscv/kernel/log.c:179-191 | the loop writes the logical contents of every logged block to the log area, one image per write, without touching a home block, with any breads and brelses by others before each round |
| Log.Log.WriteHead | project1c/xv6-riscv/kernel/log.c:103-114 | one write, of the header block, with the count and the block numbers of the in-memory header |
| Log.Log.ReadHead | project1c/xv6-riscv/kernel/log.c:87-97 | the in-memory header becomes the one on disk, and the disk is not changed |
| Log.Log.InstallTrans | project1c/xv6-riscv/kernel/log.c:69-83 | the loop copies every logged block home, one image per write, and takes away exactly the pin log_write gave (none in recovery), with any breads and brelses by others before each round |
| Log.Log.Interlude | project1c/xv6-riscv/kernel/bio.c:93-137 | between the log's own steps any number of breads and brelses by other processes: each bread returns the last contents logged for its block, and nothing the commit needs changes |
| LogState.ReaderDuringInstall | project1c/xv6-riscv/kernel/log.c:69-83 | while install_trans copies blocks home and drops pins, a bread of any block outside the log returns what was last logged for it |
| Log.Log.Commit | project1c/xv6-riscv/kernel/log.c:194-203 | all images written form a commit that is atomic in the sense above, however far it gets. With buffers enough (one unreferenced, and no breads by others) it goes through: two images for each logged block and two of the header; afterwards header and log are empty and the disk is the logical disk, which is now the committed one. It stops only when no buffer is unreferenced, and then with the first write not made if that was so from the start. Every bread made before any of its writes was answered with the logical disk |
| Log.Log.WriteAndCommit | project1c/xv6-riscv/kernel/log.c:194-198 | up to and with the header write, the commit point |
| Log.Log.InstallAndClear | project1c/xv6-riscv/kernel/log.c:199-201 | from the commit point to the empty header |
| LogState.SpareBuffers | project1c/xv6-riscv/kernel/bio.c:59-89 | at least NBUF buffers less those held and those pinned for the log are unreferenced |
| Log.Log.LastOut | project1c/xv6-riscv/kernel/log.c:164-175 | the second half of end_op: the commit, with its panic condition, and the end of committing |
| FullLog.FullLogCannotCommit | project1c/xv6-riscv/kernel/log.c:147-203 | from any image with an empty header, three operations that log ten different blocks each: the log then pins every buffer, and the commit of the last one panics before its first write |
| Log.Log.RecoverFromLog | project1c/xv6-riscv/kernel/log.c:117-123 | every image on the way is one a crashed recovery can leave; with two unreferenced buffers it goes through, and then disk, logical disk and committed disk are the recovered image |
| Log.Log.Read | project1c/xv6-riscv/kernel/bio.c:93-103 | cache and log refine one disk: a block read outside the log area has the last contents logged for it, even while its home block is stale; no buffer is found only if none is unreferenced |
| Log.Log.LogWrite | project1c/xv6-riscv/kernel/log.c:215-235 | panics exactly as the two tests say and then changes nothing; otherwise the logical disk changes at that block only, the block is in the header once and pinned once, a second log_write of it being absorbed |
| Log.Log.BeginOp | project1c/xv6-riscv/kernel/log.c:127-142 | an operation is admitted exactly when no commit is under way and its reservation fits, and is outstanding then with nothing logged |
| Log.Log.EndOp | project1c/xv6-riscv/kernel/log.c:147-175 | the last operation out commits everything, the others nothing: it goes through if nobody breads meanwhile and buffers held plus blocks logged are fewer than NBUF, or one is unreferenced, and panics only with none unreferenced; the logical disk is the same before and after, and others' breads during the commit see it; home blocks have the committed contents before, and the logical disk is the committed one after the last operation |
| Log.Log.Look | project1c/xv6-riscv/kernel/fs.c:475-489 | a block read through the log is the block of the logical disk |
| Log.Log.Store | project1c/xv6-riscv/kernel/fs.c:55-62 | bread, new contents, log_write and brelse change exactly that block of the logical disk, with no panic of log_write as long as the operation has budget |
| LogState.ModifyKeepsLog | project1c/xv6-riscv/kernel/bio.c:93-103 | a holder changing a buffer that it has not logged yet leaves every other logged block readable and pinned |
| Inodes.DinodeRoundTrip | project1c/xv6-riscv/kernel/fs.c:226-241 | an inode stored by iupdate is read back by ilock, and the other inodes of its block are untouched |
| Inodes.DinodeLayout | project1c/xv6-riscv/kernel/fs.h:32-39 | where the fields of an inode are among the 64 bytes of its slot, least significant byte first |
| Inodes.BitsAfterSet | project1c/xv6-riscv/kernel/fs.c:72-76 | balloc's mask arithmetic sets one bit of a byte and no other |
| Inodes.BitsAfterClear | project1c/xv6-riscv/kernel/fs.c:98-102 | bfree's mask arithmetic clears one bit of a byte and no other |
| Ownership.ReachedOnce | project1c/xv6-riscv/kernel/fs.c:383-421 | in every well-formed state no block is reached twice, from one inode or from two, whether as direct block, indirect block or indirect entry |
| Ownership.AllocatedIsReached | project1c/xv6-riscv/kernel/fs.c:66-105 | between operations the allocated data blocks of the bitmap are exactly the blocks that allocated inodes reach |
| Ownership.BitmapAfter | project1c/xv6-riscv/kernel/fs.c:66-105 | a change of one bitmap bit changes the mark of that block only, whichever bitmap block it is in |
| Ownership.BitOnDisk | project1c/xv6-riscv/kernel/fs.h:47-51 | which bit of the disk is the mark of a block |
| Ownership.ByteOnDisk | project1c/xv6-riscv/kernel/fs.c:383-421 | where the bytes of a file are on disk: in the block whose number is the direct address, or the word of the indirect block |
| Ownership.BlockWritten | project1c/xv6-riscv/kernel/fs.c:506-539 | writing any block that is not an indirect block changes one block of at most one file |
| FileChanges.TakenKeeps | project1c/xv6-riscv/kernel/fs.c:66-88 | a block whose bit is clear is no metadata and nobody's; marking and zeroing it keeps every file |
| FileChanges.FreedKeeps | project1c/xv6-riscv/kernel/fs.c:92-105 | a block taken out of its file is still marked, so "freeing free block" cannot happen; clearing the bit keeps every file |
| FileChanges.LinkDirect | project1c/xv6-riscv/kernel/fs.c:388-396 | storing a fresh block in an inode address keeps ownership exact and changes the contents of no file |
| FileChanges.LinkEntry | project1c/xv6-riscv/kernel/fs.c:408-416 | so does storing it in the indirect block |
| FileChanges.DataWritten | project1c/xv6-riscv/kernel/fs.c:519-530 | writing a data block changes that block of that file and no other |
| FileChanges.InodeStored | project1c/xv6-riscv/kernel/fs.c:226-241 | iupdate changes no file and no bit of the map, and brings disk and memory inode together |
| FileChanges.Unlink | project1c/xv6-riscv/kernel/fs.c:426-453 | taking an inode's addresses away leaves all other files as they are |
| FileChanges.FreedExactly | project1c/xv6-riscv/kernel/fs.c:426-453 | the blocks that itrunc turns from allocated to free are exactly the ones the inode reached |
| FileSystem.FileSystem.FindFree | project1c/xv6-riscv/kernel/fs.c:70-87 | the two nested loops find the first clear bit of the whole map, 0 exactly when there is none |
| FileSystem.FileSystem.Balloc | project1c/xv6-riscv/kernel/fs.c:66-88 | a block that nobody owned, marked and zeroed, or nothing changed because the disk is full; two blocks are logged |
| FileSystem.FileSystem.Bfree | project1c/xv6-riscv/kernel/fs.c:92-105 | only the block's bit changes, and the panic is not reached |
| FileSystem.FileSystem.AddrBlock | project1c/xv6-riscv/kernel/fs.c:388-404 | the address in the inode, filled in if it was empty and the disk had room |
| FileSystem.FileSystem.EntryBlock | project1c/xv6-riscv/kernel/fs.c:406-418 | the entry of the indirect block, filled in if it was empty and the disk had room |
| FileSystem.FileSystem.DirectBlock | project1c/xv6-riscv/kernel/fs.c:388-396 | bmap for a direct block |
| FileSystem.FileSystem.IndirectBlock | project1c/xv6-riscv/kernel/fs.c:398-418 | bmap for the others: the indirect block first, then its entry; a full disk after the first leaves an empty indirect block that belongs to the file |
| FileSystem.FileSystem.Bmap | project1c/xv6-riscv/kernel/fs.c:383-421 | the block's address, the direct address or the word of the indirect block, with no change to the contents of any file, at most the logged blocks counted, and every changed block logged |
| FileSystem.FileSystem.Iupdate | project1c/xv6-riscv/kernel/fs.c:226-241 | disk and memory inodes agree; the inode block is logged, and logged last |
| FileSystem.FileSystem.Readi | project1c/xv6-riscv/kernel/fs.c:472-496 | the bytes off to min(off + n, size) of the flat file, across block boundaries, up to the first that cannot be copied out; -1 exactly when there is such a byte; nothing is changed |
| FileSystem.FileSystem.Writei | project1c/xv6-riscv/kernel/fs.c:506-539 | -1 exactly for off > size or a file that would be too long; otherwise all n bytes go in, or a full disk stops it after r bytes where the file has no block yet, or it stops at the block in which the copy fails, after which the bytes that could be copied are in that block; the flat file is the old one with exactly these bytes replaced, its size counts r bytes, no other file changes, the number of blocks logged is bounded, and every changed block is logged but the one with the failed copy |
| FileSystem.FaultGoesUnlogged | project1c/xv6-riscv/kernel/fs.c:518-528 | from any state with a non-empty file, a write of two bytes of which one can be copied in: it reports 0 bytes, the first byte of the file has changed, and a changed block is not logged |
| FileSystem.FileSystem.Itrunc | project1c/xv6-riscv/kernel/fs.c:426-453 | the file is empty, exactly its blocks are free, no other file changes, every changed block is logged |
| FileSystem.FileSystem.FreeInode | project1c/xv6-riscv/kernel/fs.c:346-356 | the last iput of an unlinked inode frees its blocks and the inode, every changed block is logged |
| FileSystem.FileSystem.Ialloc | project1c/xv6-riscv/kernel/fs.c:199-219 | the lowest free inode, with the given type and no contents; 0 exactly when none is free; every changed block is logged |
| FileSystem.FileSystem.Filewrite | project1c/xv6-riscv/kernel/file.c:135-181 | the chunked loop writes a prefix of the bytes at the offset, all of them exactly when it returns the full count, stopping short only for a bad offset or length, a full disk or a byte that cannot be copied in; every chunk's transaction logs at most MAXOPBLOCKS blocks and has budget left at every log_write |
| FileBytes.ChunkFits | project1c/xv6-riscv/kernel/file.c:148-174 | a chunk of at most ((MAXOPBLOCKS-1-1-2)/2)*BSIZE bytes at any offset needs at most MAXOPBLOCKS log blocks |
| FileLog.LogWriteFits | project1c/xv6-riscv/kernel/log.c:215-235 | an operation that has logged fewer than MAXOPBLOCKS blocks may log any block that fs.c logs: it lies outside the log, log_write does not panic, and the admission invariant is kept |
| FileLog.NoPanicInReservation | project1c/xv6-riscv/kernel/log.c:126-235 | so in every interleaving of operations |
| FileLog.FilesBehindLog | project1c/xv6-riscv/kernel/fs.h:8-26 | inodes, bitmap and contents are read from blocks behind the log only, so disks that agree there hold the same well-formed file system, the same inodes, the same bytes in every file and the same free blocks |
| FileLog.CrashDuringCommit | project1c/xv6-riscv/kernel/log.c:194-203 | from any image of a commit, however often recovery crashes, what is recovered are the flat files of the last committed group of operations before the header write and those of this group from then on |
| FileLog.CrashBetween | project1c/xv6-riscv/kernel/log.c:117-123 | with no commit under way they are those of the last committed group |
| FileLog.Mounted.CrashNow | project1c/xv6-riscv/kernel/log.c:117-123 | so at any time between commits, whatever the operations at work have changed and logged |
| FileLog.Mounted.BeginOp | project1c/xv6-riscv/kernel/log.c:127-142 | admission keeps file system and log joined: the disk fs.c sees is the logical disk |
| FileLog.Mounted.Look | project1c/xv6-riscv/kernel/fs.c:475-489 | what fs.c reads through the log is the block of the file system model's disk |
| FileLog.Mounted.LogWrite | project1c/xv6-riscv/kernel/fs.c:55-62 | each log_write of the file system model is a bread, an update, a log_write and a brelse on the log, fits it, and keeps the two disks equal, by any of the operations at work |
| FileLog.Mounted.EndOp | project1c/xv6-riscv/kernel/log.c:147-203 | the last operation out commits: every image the disk goes through recovers to the files of the last committed group or, from the header write on, to the files as they are now; it goes through under the condition of the log's end_op; the others change nothing on disk |
| FileLog.Reboot | project1c/xv6-riscv/kernel/log.c:53-66 | the next boot always goes through and finds those files, and an image on which its recovery crashes still recovers to them |
| FileBytes.AfterBlock | project1c/xv6-riscv/kernel/fs.c:519-530 | one round of writei patches exactly the next bytes of the file |
| FileBytes.ContentsSpliced | project1c/xv6-riscv/kernel/fs.c:506-539 | patched blocks plus the new size are the flat file with the bytes spliced in |
| FileBytes.ReadBack | project1c/xv6-riscv/kernel/fs.c:472-539 | what was written at an offset is what is read there, and the bytes before it are as they were |
| FileBytes.SpliceTwice | project1c/xv6-riscv/kernel/file.c:156-174 | writing in consecutive chunks is writing at once |
| PageTables.PteRoundTrip | project1c/xv6-riscv/kernel/riscv.h:347-357 | PTE2PA inverts PA2PTE whatever the flags, and the flags come back too |
| PageTables.VpnSplit | project1c/xv6-riscv/kernel/riscv.h:354-357 | the three 9-bit indices determine the virtual page |
| PageTables.ThreeLoads | project1c/xv6-riscv/kernel/vm.c:71-103 | the leaf entry is found by three loads, at the three nine-bit parts of the page number, the highest first |
| PageTables.SlotsDistinct | project1c/xv6-riscv/kernel/vm.c:86-103 | two virtual pages, of one address space or two, never have the same leaf entry |
| PageTables.FreeApart | project1c/xv6-riscv/kernel/kalloc.c:47-82 | the free list has no page twice and none that is a table or mapped |
| PageChanges.PoppedKeeps | project1c/xv6-riscv/kernel/kalloc.c:69-82 | taking a page off the free list changes no translation |
| PageChanges.PushedKeeps | project1c/xv6-riscv/kernel/kalloc.c:47-63 | overwriting the link word of a page nobody uses changes no translation |
| PageChanges.GraftKeeps | project1c/xv6-riscv/kernel/vm.c:92-100 | linking a zeroed page in as a table changes no translation of any address space and moves no table |
| PageChanges.MapKeeps | project1c/xv6-riscv/kernel/vm.c:143-165 | writing a leaf entry changes one translation |
| PageChanges.UnmapKeeps | project1c/xv6-riscv/kernel/vm.c:171-192 | clearing a leaf entry removes one translation |
| PageChanges.UprootKeeps | project1c/xv6-riscv/kernel/vm.c:272-297 | the tables of an address space without mappings form a tree of their own |
| VirtualMemory.Memory.Kalloc | project1c/xv6-riscv/kernel/kalloc.c:69-82 | a page that was free, filled with junk; 0 exactly when there is none |
| VirtualMemory.Memory.Kfree | project1c/xv6-riscv/kernel/kalloc.c:47-63 | the page is first on the free list, with its link in its first word |
| VirtualMemory.Memory.Freerange | project1c/xv6-riscv/kernel/kalloc.c:34-40 | exactly the whole pages of the range become free |
| VirtualMemory.Memory.Walk | project1c/xv6-riscv/kernel/vm.c:86-103 | finds or builds the page with the leaf entry; changes no translation even when kalloc fails midway, and without alloc changes nothing |
| VirtualMemory.Memory.Walkaddr | project1c/xv6-riscv/kernel/vm.c:109-126 | the physical page of a valid mapping with PTE_U, 0 for anything else |
| VirtualMemory.MapThenLook | project1c/xv6-riscv/kernel/vm.c:109-165 | what mappages has mapped, walkaddr finds if and only if it was mapped for the user |
| VirtualMemory.Memory.Mappages | project1c/xv6-riscv/kernel/vm.c:143-165 | on 0 exactly the requested pages are mapped, on -1 exactly a prefix of them and memory has run out |
| VirtualMemory.Memory.Uvmunmap | project1c/xv6-riscv/kernel/vm.c:171-192 | exactly the range is unmapped; with do_free exactly its pages are free again, without it they keep their contents and are the kernel's |
| VirtualMemory.Memory.AddPage | project1c/xv6-riscv/kernel/vm.c:236-246 | one page is taken, filled and mapped, or memory ran out, the map is as before and the page is back |
| VirtualMemory.Memory.Uvmalloc | project1c/xv6-riscv/kernel/vm.c:226-249 | zeroed pages with the right flags at exactly the new places, or memory ran out, and the old map and every page it took is back |
| VirtualMemory.Memory.Uvmdealloc | project1c/xv6-riscv/kernel/vm.c:256-267 | exactly the pages wholly above the new size are unmapped and freed |
| VirtualMemory.Memory.Uvmcopy | project1c/xv6-riscv/kernel/vm.c:306-333 | the child has equal contents and flags in pages of its own, or memory ran out, and the old map and every page it took is back |
| VirtualMemory.Memory.Uvmcreate | project1c/xv6-riscv/kernel/vm.c:197-205 | a new root that maps nothing; 0 exactly when there is no page |
| VirtualMemory.Memory.Freewalk | project1c/xv6-riscv/kernel/vm.c:272-287 | terminates, and each table of the tree goes back to the free list exactly once |
| VirtualMemory.Memory.Uvmfree | project1c/xv6-riscv/kernel/vm.c:292-297 | exactly the user pages and tables of the address space become free, each once, and no other address space changes |
| UserMemory.GotApart | project1c/xv6-riscv/kernel/vm.c:306-333 | pages given out are different from each other and from every page in use before |
| UserMemory.GrownThenShrunk | project1c/xv6-riscv/kernel/vm.c:226-249 | undoing a partly built mapping restores the map and returns every page that is not a table |
| UserMemory.GoneAfter | project1c/xv6-riscv/kernel/vm.c:292-297 | unmapping the pages and freeing the tables accounts for every page of the address space |
| ProcTables.ProcPagetable | project1c/xv6-riscv/kernel/proc.c:209-240 | a table with the trampoline and the trapframe at the top and nothing else; or 0, every mapping as before and every free page free again, wherever memory ran out |
| ProcTables.ProcFreepagetable | project1c/xv6-riscv/kernel/proc.c:244-249 | every page and table of the process is free, but the trapframe page, which is unmapped and the kernel's again; no other address space changes |
| FreeList.PlaceTest | project1c/xv6-riscv/user/umalloc.c:31-33 | the loop test of free holds at the place where the block belongs and nowhere else, including the wrap point |
| FreeList.FindPlace | project1c/xv6-riscv/user/umalloc.c:31-33 | such a place exists for every block apart from the list |
| FreeList.CoalescedOrdered | project1c/xv6-riscv/user/umalloc.c:34-42 | after merging with both neighbours the list is in address order with a gap after every block |
| FreeList.CoalescedCovers | project1c/xv6-riscv/user/umalloc.c:34-42 | the units on the list are those that were there and those of the block |
| FreeList.CircularCoalesced | project1c/xv6-riscv/user/umalloc.c:34-42 | the pointer and size stores of free produce the circular list of the merged blocks |
| FreeList.CarvedOrdered | project1c/xv6-riscv/user/umalloc.c:74-83 | after taking units off a block the list is still in order, and the piece taken is apart from all of it |
| FreeList.CarvedCovers | project1c/xv6-riscv/user/umalloc.c:74-83 | no unit is lost or duplicated by the split |
| UserMalloc.Allocator.Free | project1c/xv6-riscv/user/umalloc.c:25-44 | terminates; exactly the block is merged into the list in its place, freep is the block before it, everything else stays |
| UserMalloc.Allocator.Morecore | project1c/xv6-riscv/user/umalloc.c:47-61 | new units come from above the break only and end up in a free block that is large enough; on failure nothing changes |
| UserMalloc.Allocator.Malloc | project1c/xv6-riscv/user/umalloc.c:64-90 | terminates; if a free block is large enough, the first one going round from freep is taken from, at its end, and no memory is asked for; otherwise sbrk is; 0 exactly if that refuses too; the block is large enough, and live, free and new units partition what sbrk gave |
| UserMalloc.Allocator.Carve | project1c/xv6-riscv/user/umalloc.c:74-85 | exact fit or tail split, by the code's stores |
| UserMalloc.FreeKeeps | project1c/xv6-riscv/user/umalloc.c:25-44 | every promise about the list, the live blocks and conservation holds after free |
| UserMalloc.CarveKeeps | project1c/xv6-riscv/user/umalloc.c:74-85 | and after malloc |
| UserMalloc.NewBlock | project1c/xv6-riscv/user/umalloc.c:47-61 | memory above the break is apart from every live and free block |
| LinkedQueues.Queues.Enque | project1c/xv6-riscv/kernel/proc.c:491-519 | append, on the doubly linked list; other queues untouched |
| LinkedQueues.Queues.Deque | project1c/xv6-riscv/kernel/proc.c:522-544 | removal of the head; other queues untouched |
| LinkedQueues.Queues.Delete | project1c/xv6-riscv/kernel/proc.c:547-577 | removal of the first occurrence, if any; other queues untouched |
| LinkedQueues.Queues.Clear | project1c/xv6-riscv/kernel/proc.c:821-824 | startMLFQ empties all queues |
| MlfqScheduler.Scheduler.TickHeld | project1c/xv6-riscv/kernel/proc.c:638-686 | the ticking, demotion and boost of the held process, by the function that Turns.QuantumUsedUp and Turns.EveryProcess characterise, and when the pass below is skipped |
| MlfqScheduler.Scheduler.RuleFive | project1c/xv6-riscv/kernel/proc.c:688-721 | every process in the bottom queue ages by one, those that reach n go to queue 0; the walk survives unlinking the element it stands on |
| MlfqScheduler.Scheduler.Visit | project1c/xv6-riscv/kernel/proc.c:690-720 | one turn of that walk |
| MlfqScheduler.Scheduler.Boost | project1c/xv6-riscv/kernel/proc.c:701-717 | the move to queue 0, by the code's append and delete |
| MlfqScheduler.Scheduler.AddNew | project1c/xv6-riscv/kernel/proc.c:723-733 | every runnable process not yet added joins queue 0 |
| MlfqScheduler.Scheduler.Select | project1c/xv6-riscv/kernel/proc.c:734-781 | the held process, or the next candidate of best priority in turn; fails exactly when none is held, there is more than one candidate and rr_index is not below their number |
| MlfqScheduler.Scheduler.Iterate | project1c/xv6-riscv/kernel/proc.c:635-793 | from every loop head in order, one whole iteration keeps the invariant and is a step of the relation the results below are about, or it fails at line 769 under exactly that condition |
| MlfqScheduler.Scheduler.Start | project1c/xv6-riscv/kernel/proc.c:797-827 | -1 exactly when running; otherwise empty queues, and for a table none of whose processes was added before the invariant holds |
| MlfqScheduler.Scheduler.Stop | project1c/xv6-riscv/kernel/proc.c:830-843 | -1 exactly when not running |
| Feedback.IterationKeeps | project1c/xv6-riscv/kernel/proc.c:635-793 | after every iteration each added process is in the queue of its priority, once, with ticks within its quantum |
| Feedback.OnePlace | project1c/xv6-riscv/kernel/proc.c:635-733 | at every loop head of every run an added process has exactly one place in exactly one queue, the one numbered by its priority |
| Feedback.QuantumBound | project1c/xv6-riscv/kernel/proc.c:638-686 | at every loop head of every run ticks[priority] < 2*(priority+1) and all other ticks are 0 |
| Turns.QuantumUsedUp | project1c/xv6-riscv/kernel/proc.c:638-686 | in an iteration, a held process at level l with 2*(l+1)-1 ticks is let go, with its ticks cleared, and goes to priority l + 1 and to the end of that queue if there is one, else stays; nothing else changes |
| Turns.EveryProcess | project1c/xv6-riscv/kernel/proc.c:635-733 | in any other iteration: priority, ticks, bottom-level count and membership of every process, from its state before; the held one stays held |
| Turns.EveryQueue | project1c/xv6-riscv/kernel/proc.c:635-733 | and every queue: those whose bottom-level count is up and then the newcomers go to the end of queue 0, all others keep their places |
| Turns.TheNext | project1c/xv6-riscv/kernel/proc.c:734-781 | the candidates are the runnable processes of best priority in table order; one is taken at once, of several the rr_index-th, which then moves on by one, round to 0 |
| Turns.Quantum | project1c/xv6-riscv/kernel/proc.c:638-686 | over runs: a process that comes to a level above the bottom stays there for exactly 2*(l+1) iterations in which it is held, then goes one level down |
| Turns.OneLevelAtATime | project1c/xv6-riscv/kernel/proc.c:635-721 | in one iteration a priority gets worse by one level only and only after the whole quantum, and better only by the boost to 0 |
| Feedback.RunsInOrder | project1c/xv6-riscv/kernel/proc.c:635-793 | a run that starts in order and goes on by iterations is in order at every loop head |
| Feedback.IndexInTable | project1c/xv6-riscv/kernel/proc.c:741-774 | rr_index never leaves the array of candidates, of which only the first entries are set |
| Feedback.SelectsBest | project1c/xv6-riscv/kernel/proc.c:736-781 | the process selected is runnable and none runnable has a better priority |
| Feedback.EntersBottom | project1c/xv6-riscv/kernel/proc.c:646-686 | a process demoted into the bottom queue starts its count there at 0 |
| Feedback.AgesAtBottom | project1c/xv6-riscv/kernel/proc.c:688-721 | before n passes it stays there, its count being the number of passes |
| Feedback.BackAtNthPass | project1c/xv6-riscv/kernel/proc.c:688-721 | the n-th pass brings it back to priority 0 |
| Feedback.EverySecondPasses | project1c/xv6-riscv/kernel/proc.c:684 | at least half of any even number of iterations make a Rule-5 pass, since the skip never happens twice running |
| Feedback.NoStarvation | project1c/xv6-riscv/kernel/proc.c:635-721 | in every run a process that has come to the bottom queue is back at priority 0 within 2n iterations |
| StrayIndex.IndexCanStray | project1c/xv6-riscv/kernel/proc.c:766-774 | from any table with four runnable processes, none added yet, m = 2 and any n >= 4, six iterations lead to a loop head from which rr_index 2 is used on two candidates |
| StrayIndex.SleeperIsReached | project1c/xv6-riscv/kernel/proc.c:734-793 | and one iteration, the process coming back asleep, to a loop head from which it is dispatched asleep |
| Feedback.DispatchesRunnable | project1c/xv6-riscv/kernel/proc.c:734-793 | the process dispatched is runnable exactly when it was freshly selected or the held one is still runnable |
| Feedback.SleeperIsRunAgain | project1c/xv6-riscv/kernel/proc.c:734-793 | every iteration from a state whose held process is asleep or has exited dispatches it again, as it is |
| ProcessLife.ProtocolKept | project1.b/xv6-riscv/kernel/proc.c:293-457 | every atomic step of fork, exit, reparent, wait, sleep, wakeup, kill and the scheduler, by any process, preempted wherever it holds no lock, keeps the lock discipline, what each process knows at its place in the code, and the no-missed-wakeup condition |
| ProcessLife.LocksFollow | project1.b/xv6-riscv/kernel/proc.c:293-610 | wait_lock and each p->lock are held by the thread whose place in the code says so |
| ProcessLife.WokenParent | project1.b/xv6-riscv/kernel/proc.c:594-610 | the wakeup of exit cannot miss a parent between its last look at its children and its sleep |
| Reaping.RunsAreSafe | project1.b/xv6-riscv/kernel/proc.c:293-610 | the protocol and the history of exits hold in every state of every run from boot |
| Reaping.NoLostChild | project1.b/xv6-riscv/kernel/proc.c:407-457 | whenever wait_lock is free, nobody asleep in wait, or committed to it, has a zombie child, and no parent is a zombie or unused |
| Reaping.ReapsOnce | project1.b/xv6-riscv/kernel/proc.c:419-440 | a wait that finds a zombie frees it, reports its pid for the first time, to its parent, with the status it exited with |
| Reaping.ExitsAccountedFor | project1.b/xv6-riscv/kernel/proc.c:362-403 | every exit so far is a zombie still to be waited for or has been reported with its true status |
| Reaping.HistoryKept | project1.b/xv6-riscv/kernel/proc.c:293-457 | each step keeps the history of exits and reports |
| Lifetimes.StatusKept | project1.b/xv6-riscv/kernel/proc.c:362-440 | over runs: the status given to a call of exit is the one recorded for that process ever after, so what wait reports of it |
| Lifetimes.WaitTellsTheTruth | project1.b/xv6-riscv/kernel/proc.c:407-440 | whatever a wait reports is the pid of a child of the caller and the status with which that child called exit, earlier in the run |
| Lifetimes.ZombieHasExited | project1.b/xv6-riscv/kernel/proc.c:362-403 | a zombie has called exit, with the status it keeps |
| Lifetimes.WaitGivesUp | project1.b/xv6-riscv/kernel/proc.c:407-457 | wait returns -1 without looking at a zombie only when the caller has no child or is killed, and sleeps only with a child, none of them a zombie |
| Lifetimes.NoOrphans | project1.b/xv6-riscv/kernel/proc.c:293-457 | every process but init that fork is done with has a live parent, in every state of every run |
| Lifetimes.ParentsChange | project1.b/xv6-riscv/kernel/proc.c:293-440 | a parent is set by fork, handed to init by the exit of the parent and forgotten by the wait for the zombie, and changes in no other way |
| Lifetimes.ForkMakesAChild | project1.b/xv6-riscv/kernel/proc.c:293-341 | a fork that is not out of memory makes a runnable child of the caller, in another slot, with a pid that nobody else has |
| Lifetimes.KilledStays | project1.b/xv6-riscv/kernel/proc.c:615-637 | kill leaves its victim killed and not asleep; only kill does so, and it stays so while the process lasts |
| LifeCycle.StatesChange | project1.b/xv6-riscv/kernel/proc.c:293-637 | between which states a slot goes, by which step of whom; a sleeper is made runnable only by kill or by a wakeup on the channel it sleeps on |
| LifeCycle.WakeupWakes | project1.b/xv6-riscv/kernel/proc.c:594-610 | a parent asleep in wait is runnable once the wakeup loop of its child's exit has passed it |
| VirtioDisk.Driver.AllocDesc | project1c/xv6-riscv/kernel/virtio_disk.c:157-166 | the first free descriptor, -1 exactly when there is none |
| VirtioDisk.Driver.FreeDesc | project1c/xv6-riscv/kernel/virtio_disk.c:170-182 | the descriptor is zeroed and free, nothing else |
| VirtioDisk.Driver.Alloc3Desc | project1c/xv6-riscv/kernel/virtio_disk.c:202-213 | three different descriptors, or the free set as before because fewer than three were free |
| VirtioDisk.Driver.FreeChain | project1c/xv6-riscv/kernel/virtio_disk.c:186-197 | frees exactly the three descriptors of the chain, no panic |
| VirtioDisk.Driver.Start | project1c/xv6-riscv/kernel/virtio_disk.c:216-275 | the request joins those in flight in three descriptors that were free, or fewer than three were and nothing changes |
| VirtioDisk.Driver.Finish | project1c/xv6-riscv/kernel/virtio_disk.c:282-292 | the request is gone, its three descriptors are zeroed and free, its buffer may be used again, and nothing else changes |
| VirtioDisk.FinishThenStart | project1c/xv6-riscv/kernel/virtio_disk.c:216-292 | right after a request is finished the next one never has to wait, even for the same buffer |
| VirtioDisk.Driver.Intr | project1c/xv6-riscv/kernel/virtio_disk.c:295-327 | every completion clears its own buffer's flag and no other, and none is left unseen |
| VirtioDisk.Driver.DeviceTake | project1c/xv6-riscv/kernel/virtio_disk.c:258-275 | any device that takes heads from the available ring finds there the next submitted one, and in its descriptors the request the driver made |
| VirtioDisk.Driver.DeviceFinish | project1c/xv6-riscv/kernel/virtio_disk.c:295-327 | and may complete those it has taken in any order |
| DiskQueue.ChainsDisjoint | project1c/xv6-riscv/kernel/virtio_disk.c:216-292 | chains in flight share no descriptor, and none of theirs is free |
| DiskQueue.DeviceReads | project1c/xv6-riscv/kernel/virtio_disk.c:232-256 | header, data and status descriptors of each request say what was asked for |
| DiskQueue.SubmittedKeeps | project1c/xv6-riscv/kernel/virtio_disk.c:216-275 | submission keeps the protocol invariant |
| DiskQueue.FinishedKeeps | project1c/xv6-riscv/kernel/virtio_disk.c:295-327 | a completion by the device keeps it |
| DiskQueue.CompletedKeeps | project1c/xv6-riscv/kernel/virtio_disk.c:303-324 | its handling keeps it and touches one buffer |
| DiskQueue.RetiredKeeps | project1c/xv6-riscv/kernel/virtio_disk.c:282-292 | freeing the chain of a request keeps the protocol invariant |
| DiskQueue.WrapHarmless | project1c/xv6-riscv/kernel/virtio_disk.c:258-270 | ring places do not depend on whether the 16-bit index has wrapped |
| DiskQueue.WrapEqual | project1c/xv6-riscv/kernel/virtio_disk.c:309-323 | comparing wrapped indices compares the counts, as long as they are close |
| Pipe.Pipe.WriteTurn | project1c/xv6-riscv/kernel/pipe.c:77-103 | from any state: how many bytes go in and how the call ends, from the arguments and the ring; bytes in order, never past PIPESIZE; and the exact condition on the arguments under which a writer killed part way leaves a reader asleep beside them |
| Pipe.ReaderLeftAsleep | project1c/xv6-riscv/kernel/pipe.c:77-130 | a run in which that happens |
| Pipe.NextWriteWakes | project1c/xv6-riscv/kernel/pipe.c:77-130 | and how it goes on: the next write wakes the reader, which gets the bytes of both writes in order |
| Pipe.Pipe.ReadTurn | project1c/xv6-riscv/kernel/pipe.c:106-130 | from any state: sleeps, or returns -1, exactly on an empty ring with a writer; otherwise takes as many bytes as are wanted, there and can be copied out, in order, and one more whose copy fails; wakes all writers, and loses no wakeup |
| Pipe.Pipe.Close | project1c/xv6-riscv/kernel/pipe.c:59-74 | from any state: wakes the other end, loses no byte; the pipe is freed exactly when both ends are closed, with nobody asleep in it |
| Pipe.Pipe.Awaken | project1c/xv6-riscv/kernel/proc.c:975-996 | kill takes a sleeper out and touches nothing else, so bytes and ring bound are kept in runs with kills |
| Pipe.Pipe.Fifo | project1c/xv6-riscv/kernel/pipe.c:77-130 | bytes taken followed by the ring contents are the bytes accepted, at most PIPESIZE in the ring |
| Pipe.FullTest | project1c/xv6-riscv/kernel/pipe.c:86 | the full test on wrapped 32-bit counters holds exactly when the ring is full |
| Pipe.EmptyTest | project1c/xv6-riscv/kernel/pipe.c:113 | the empty test on wrapped 32-bit counters holds exactly when the ring is empty |
| Grep.Match | project1c/xv6-riscv/user/grep.c:72-81 | true exactly when some stretch of the text is in the language of the expression: a prefix under a leading ^, reaching the end under a final $ |
| Grep.MatchHere | project1c/xv6-riscv/user/grep.c:84-95 | terminates, and decides whether the expression holds at the beginning of the text |
| Grep.MatchStar | project1c/xv6-riscv/user/grep.c:98-105 | shortest-first search succeeds exactly when some split does |
| Grep.HereStar | project1c/xv6-riscv/user/grep.c:88-89 | the language of c*re is a run of c followed by re |
| Grep.HereOne | project1c/xv6-riscv/user/grep.c:92-93 | the language of a literal or a dot followed by re |
| ShellText.ParsesExactlyTheLanguage | project1c/xv6-riscv/user/sh.c:266-447 | any text whatever parses exactly when it is a line of the command language written out with any blanks (words with redirections before, between and behind them, fewer than MAXARGS to a command; pipes, lists, background marks and parentheses), and then to the tree of that line: the words in order inside their redirections, the first innermost, pipes and lists to the right |
| ShellTyped.ParsesExactly | project1c/xv6-riscv/user/sh.c:329-447 | the same of tokens |
| ShellTyped.LineParses | project1c/xv6-riscv/user/sh.c:346-360 | every such line parses to its tree, in front of a closing parenthesis too |
| ShellTyped.ReadLine | project1c/xv6-riscv/user/sh.c:346-447 | whatever parses is such a line, with its tree |
| ShellTyped.ArgsParse | project1c/xv6-riscv/user/sh.c:431-446 | the loop of parseexec keeps every word and every redirection between words, in order |
| ShellTyped.Redirected | project1c/xv6-riscv/user/sh.c:376-447 | < f a > g b is a with argument b, input from f and output to g, with the open modes and descriptors of both |
| ShellTyped.Appended | project1c/xv6-riscv/user/sh.c:376-398 | a >> f appends |
| ShellTyped.PipedAndListed | project1c/xv6-riscv/user/sh.c:346-373 | a | b | c is a pipe from a to the pipe from b to c; a & ; b is a list of a in the background and b |
| ShellTyped.BlockRedirected | project1c/xv6-riscv/user/sh.c:401-414 | ( a ) > f is a with its output to f |
| ShellLexing.WrittenLexes | project1c/xv6-riscv/user/sh.c:267-309 | the lexer gives back the tokens that were written, with any blanks between them, and with none where two tokens do not run together |
| ShellLexing.EveryText | project1c/xv6-riscv/user/sh.c:267-309 | every text is tokens written in this way |
| ShellText.LineText | project1c/xv6-riscv/user/sh.c:346-447 | parsing spans of the line and then reading them is parsing the words |
| ShellText.RoundTrip | project1c/xv6-riscv/user/sh.c:266-447 | every command tree with fewer than MAXARGS plain words per exec and the three redirections is what some line parses to: its parenthesised rendering |
| ShellParser.Parser.GetToken | project1c/xv6-riscv/user/sh.c:267-309 | returns the next token and moves the cursor past it and the blanks behind it |
| ShellParser.Parser.Peek | project1c/xv6-riscv/user/sh.c:312-321 | moves over blanks only, and tells whether one of the characters is next |
| ShellParser.Parser.ParseRedirs | project1c/xv6-riscv/user/sh.c:376-398 | the loop wraps one redirection after another round the command |
| ShellParser.Parser.ParseBlock | project1c/xv6-riscv/user/sh.c:401-414 | a parenthesised line with its redirections, or the syntax error |
| ShellParser.Parser.ParseOneExec | project1c/xv6-riscv/user/sh.c:417-447 | words and redirections in any order, the too-many-arguments panic at MAXARGS; the result is that of the grammar, which ShellTyped.ArgsParse says keeps them all |
| ShellParser.Parser.ParseOnePipe | project1c/xv6-riscv/user/sh.c:363-373 | right-nested pipes |
| ShellParser.Parser.ParseOneLine | project1c/xv6-riscv/user/sh.c:346-360 | background marks and right-nested lists; the mutual recursion terminates because each cycle consumes input |
| ShellParser.Parser.ParseCmd | project1c/xv6-riscv/user/sh.c:329-343 | parses the whole line or reports the error, leftovers included |
| ShellParser.ParsedGood | project1c/xv6-riscv/user/sh.c:329-447 | every word of a parsed command is a whole word of the line, so its end is a blank, a symbol or the end |
| ShellParser.Nulterminate | project1c/xv6-riscv/user/sh.c:451-494 | puts a NUL at the end of every word of the command and changes no other character |
| ShellParser.WordsAreStrings | project1c/xv6-riscv/user/sh.c:451-494 | afterwards each word read as a C string is that word |

## Left out

- BufferCache.Cache.Bget: only for device ROOTDEV, the only one in use; sleep-locks are not modelled, a holder's
  changes to a buffer are single steps.
- BufferCache.Cache.FindCached: only for device ROOTDEV.
- BufferCache.Cache.Bread: only for device ROOTDEV; disk errors are not modelled.
- BufferCache.Cache.Brelse: the last holder has logged or written what it changed; the C function would let the change
  be lost.
- Log.Log.RecoverFromLog: for an image whose header lists at most LOGSIZE blocks, all outside the log area, as every
  image the log itself leaves does; an arbitrary corrupt header is not covered.
- Log.Log.ReadHead: the same.
- FullLog.FullLogCannotCommit: for a log area of more than LOGSIZE blocks, as mkfs lays it out; mkfs is not part of
  this model.
- Log.Log.Commit: other processes read between any two of its block writes; one round (two breads, the copy, the
  write, two brelses) is one step for them, during which the sleep-locks keep them off its two blocks. begin_op keeps
  writers out.
- FileSystem.FileSystem.Writei: what a failed copy leaves in a block that is not logged stays in the model's disk; in
  the C code it is lost once the buffer is recycled. The user's memory is the bytes that can be copied from it.
- FileSystem.FileSystem.Filewrite: f->off and the inode lock are a parameter and a precondition; pipes and devices are
  the other branches of the C function.
- FileSystem.FileSystem.FreeInode: iget, iput and the reference counts of the inode table around it are not modelled.
- FileLog.Mounted.LogWrite: one log_write of the file system at a time, on a block that nobody else is changing; a
  whole operation of FileSystem is a sequence of them.
- The file system runs one operation at a time, on an inode that is locked.
- Directories and paths (dirlookup, dirlink, skipelem, namex), link counts, file descriptors (filealloc, filedup,
  fileclose).
- VirtualMemory.Memory.Walk: for addresses below MAXVA, where the C function does not panic; sfence.vma and satp are
  hardware.
- VirtualMemory.Memory.Mappages: ranges with size > 0 and nothing mapped yet, where the C function does not panic.
- VirtualMemory.Memory.Uvmunmap: ranges of mapped leaves, where the C function does not panic.
- VirtualMemory.Memory.Kfree: of a page that is not mapped. freeproc frees the trapframe page while it is still mapped
  and only then unmaps it; that order is not modelled.
- copyin, copyout, copyinstr, uvmfirst, uvmclear and the kernel page table.
- UserMalloc.Allocator.Morecore: requests whose size in bytes fits the int argument of sbrk.
- UserMalloc.Allocator.Malloc: requests whose size in bytes fits the int argument of sbrk; the program break is
  aligned to header units, and memory between two grants belongs to others.
- LinkedQueues.Queues.Enque: kalloc succeeds and gives a page not in use in the queues; mlfq_delete never frees its
  page, which is left as it is.
- MlfqScheduler.Scheduler.Iterate: no process is freed during the run; what the C function does with the stray pointer
  is not modelled, and neither are tickCounts and the report fields.
- MlfqScheduler.Scheduler.Start: the invariant is promised for 2 <= m <= MLFQ_MAX_LEVEL, n >= 1 and processes never
  added before, since the C function checks neither.
- Feedback.NoStarvation: counts iterations of the loop head; how long the dispatched process runs is arbitrary.
- ProcessLife.ProtocolKept: kill and scheduling are single steps, sleeps on other channels are abstract, fork's copies
  are not modelled; a copyout that fails in wait leaves the child a zombie.
- VirtioDisk.Driver.Start: the bytes transferred, device initialisation, registers and memory barriers are not
  modelled; the device completes each request once with status 0.
- Pipe.Pipe.ReadTurn: one call between taking and giving up the lock is one step; which of several sleepers runs first
  is arbitrary.
- Grep.Match: C strings without NULs inside; the line buffering of grep() around it is left out.
- ShellParser.Parser.ParseCmd: the command tree is a value and fork, runcmd and file modes are left out.
- Interrupt controllers, console, boot code, assembly, memory ordering: hardware. Spinlocks are atomic.
- The copies of bio.c, log.c, fs.c and vm.c in project1.b, which are the same code.
