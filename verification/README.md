# Verified models of xv6

Dafny models of the parts of xv6-riscv, and of its system-call sandbox, whose correctness is hardest to
see from the code, with proofs of what they promise. `dafny verify dfyconfig.toml` checks the whole
project.

| files | component | main results |
|---|---|---|
| `RedoLog`, `LogAdmission` | redo log (`kernel/log.c`) | crash atomicity for every crash point of commit and recovery; durability over histories; reservations in every interleaving |
| `BufferCache`, `CacheRuns` | block cache (`kernel/bio.c`) | the linked LRU list; every run refines a plain block store |
| `Blocks`, `Dinodes`, `FsModel`, `FileSystem`, `WriteFaults` | block allocator and inodes (`kernel/fs.c`), `filewrite` (`kernel/file.c`) | reads and writes are slices and splices; exact block ownership; transaction size for every bitmap; what a faulting write reports and shows |
| `FsCrash` | the file system on the log (`kernel/fs.c`, `kernel/log.c`) | whatever crashes, what a boot finds is a consistent file system with every file at a transaction boundary |
| `Kalloc`, `PageTable`, `UserMemory`, `UserPages`, `CopyMemory`, `Teardown`, `ProcMemory`, `MemoryRuns` | virtual memory (`kernel/vm.c`, `kernel/kalloc.c`, `kernel/proc.c`, `kernel/sysproc.c`) | the Sv39 tree refines a flat map; rollback; copying; fork isolation; page conservation over runs |
| `SleepLock` | sleep, wakeup and sleep locks (`kernel/proc.c`, `kernel/sleeplock.c`) | no lost wakeup and mutual exclusion in every interleaving |
| `ProcTree` | fork, exit and wait (`kernel/proc.c`) | parents are alive; zombies are reaped exactly once; no exit goes unnoticed by a sleeping `wait` |
| `VirtioQueue`, `VirtioRuns` | disk driver (`kernel/virtio_disk.c`) | disjoint chains, intact rings across index wrap, completions matched to requests |
| `Umalloc` | user allocator (`user/umalloc.c`) | circular, ordered, coalesced list; disjoint blocks; units conserved |
| `ShellParser`, `ShellGrammar`, `ShellRender`, `ShellTokens` | shell parser (`user/sh.c`) | the parser accepts exactly its grammar; round trip; token termination |
| `Pipe`, `PipeRuns` | pipes (`kernel/pipe.c`) | FIFO across counter wrap; exactly when a wakeup is lost |
| `Filter` | system-call filter (`kernel/syscall.c`, `kernel/sysproc.c`, `kfork`) | the mask ratchet over runs and process trees |

How the models stand to the code:

- Code that updates state in place is a class whose methods follow the C functions, loops included, and
  are proved against specification functions; protocols are state machines over their atomic steps with
  theorems about every run.
- A `panic` is an outcome that is characterised exactly, or a precondition that every caller in the model
  is proved to meet.
- Integers are unbounded except where the width matters: the log header and inode words are 32 bits,
  pipe counters 32 bits, ring indices 16 bits, disk sectors, file offsets and `off + n` 32 bits,
  `growproc`'s size 64 bits, filter masks 64-bit vectors.
- A physical page belongs to one owner at a time, and its bytes are kept with the owner: table pages in
  `tables`, user pages in `mem`. That no page ever has two owners is what the run theorem proves.
- User memory given to `readi` is the room there, to `writei` the bytes that can be read before a fault. A
  copy that faults inside a block leaves what had arrived in the cached block, as `copyin` does.
- Spinlocks are owners that a step may take when they are free. `kernel/log.c`, `kernel/pipe.c` and the
  wait lock are modelled at the grain of their critical sections; sleep locks at the grain of statements.
- Inode operations run one at a time: the model does not interleave two `bmap` calls on different inodes
  between `balloc` and the entry of the block into its slot.
- The heap area that `sbrk` returns to `malloc` lies above everything it returned before, and the static
  list head below it.

Properties that one might expect and that turn out false of the code, each with the exact condition:

- Adding at most `MAXOPBLOCKS` new block numbers per operation does not keep `log_write` from
  panicking: the guard also fires on a write that would be absorbed. `AbsorbedWritePanics` gives the run,
  `PanicExactly` the condition.
- `writei` may change bytes beyond those it reports: a copy that faults inside a block has changed the
  cached block, which is released unlogged. `ReportExact` says how much is reported and how much copied,
  `FaultRun` gives a run, `WriteiHonest` the condition under which a call shows only what it reports,
  `FilewriteHonest` that for `filewrite`, and `ReadsLastStore` how long the bytes stay: until the block is
  next read from disk.
- `pipewrite` may leave a reader asleep over buffered bytes: a writer found killed after it has put some in
  returns without a wakeup. `LostRun` gives the run, `ReadersWoken` and `LostExactly` the condition.
- A child is not always at least as restricted as its parent: the pending child mask is compared with
  the parent's mask when it is set, not when `fork` uses it. `PendingMaskCanBeStale` gives the run,
  `ForkedKeeps` the condition.
- `malloc` does not always obtain the memory it hands out: beyond `MAXREQUEST` bytes the size no longer
  fits the int argument of `sbrk`. `SbrkExact` gives the condition, `SbrkShrinks` a request for which `sbrk`
  is asked to take memory away.
- Pids repeat once `nextpid` has wrapped. `SharedRun` gives a run with two live processes of one pid,
  `PidsShared` the condition.

A shrink by more than the size of the process is no error: the new size wraps and nothing changes
(`Growproc`).

## Model

| member | source | states |
|---|---|---|
| RedoLog.CrashAtomicity | kernel/log.c:65-204 | A commit cut off after any of its 2n+2 block writes, then any number of recoveries cut off anywhere, then one complete recovery: the home blocks are exactly those before the transaction (header not yet written) or exactly those after it. |
| RedoLog.DurableHistory | kernel/log.c:65-204 | Over every history of commits, crashes and recoveries the home blocks are the initial ones with exactly the committed transactions applied, whole and in order. |
| RedoLog.AttemptOutcome | kernel/log.c:117-204 | One attempt of a history, from a disk with an empty log, applies its transaction wholly or not at all and leaves the log empty; an empty transaction writes nothing. |
| RedoLog.CommitPoint | kernel/log.c:194-204 | After c writes of a commit the disk recovers to the old home blocks if c is at most n, to the new ones from the header write on. |
| RedoLog.HeaderCommits | kernel/log.c:100-115 | Once the header is on disk, recovery yields every logged value at home and every other block unchanged. |
| RedoLog.LoggedInvisible | kernel/log.c:178-192 | Copies in the log area are invisible to recovery while the header is empty. |
| RedoLog.RecoveryRestarts | kernel/log.c:117-124 | A recovery that crashes after any number of its writes leaves a disk that recovers to the same home blocks. |
| RedoLog.RecoverySurvivesCrashes | kernel/log.c:117-124 | Any number of crashes inside recovery do not change what recovery finally yields. |
| RedoLog.LoggedValues | kernel/log.c:178-192 | write_log puts the cached contents of the k-th block at log block k and changes nothing else. |
| RedoLog.InstalledOthers | kernel/log.c:65-84 | install_trans changes only the home blocks listed so far. |
| RedoLog.InstalledValues | kernel/log.c:65-84 | install_trans puts every logged value at home. |
| RedoLog.InstalledAgrees | kernel/log.c:65-84 | What installing yields depends only on the log area and on the blocks it does not overwrite. |
| RedoLog.CommitEnds | kernel/log.c:194-204 | A complete commit ends with the new home blocks and an empty header. |
| RedoLog.CommitStateAt | kernel/log.c:194-204 | The disks that a commit exposes to a crash are, in order, the 2n+2 disks the crash theorem speaks of. |
| RedoLog.RecoverStateAt | kernel/log.c:117-124 | The disks that a recovery exposes are, in order, the n+1 disks the crash theorem speaks of. |
| RedoLog.Headed | kernel/log.c:100-115 | Reading the header just written gives back its count and block numbers. |
| RedoLog.Log.BeginOp | kernel/log.c:126-143 | Admits an operation exactly when no commit runs and the header has room for all reservations including this one. |
| RedoLog.Log.EndOp | kernel/log.c:145-165 | The last operation out is told to commit; panics exactly when a commit is running. |
| RedoLog.Log.LogWrite | kernel/log.c:206-236 | Records each number once, pins the block so that readers see the new contents, and panics exactly when the header is full or no operation is open. |
| RedoLog.Log.WriteLog | kernel/log.c:178-192 | The disk goes through the log-area copies, one write at a time. |
| RedoLog.Log.WriteHead | kernel/log.c:100-115 | One block write that makes the on-disk header equal to the in-memory one. |
| RedoLog.Log.InstallTrans | kernel/log.c:65-84 | Copies every logged block home, one write at a time, and unpins each unless recovering. |
| RedoLog.Log.Commit | kernel/log.c:194-204 | On return the disk holds what readers saw, nothing is pinned and the log is empty; the disks on the way are exactly those of the crash theorem. |
| RedoLog.Log.ReadHead | kernel/log.c:86-98 | The in-memory header becomes the on-disk one. |
| RedoLog.Log.Recover | kernel/log.c:117-124 | The disk goes through exactly the recovery states and ends recovered with an empty log. |
| LogAdmission.ReservationsHold | kernel/log.c:126-176 | In every interleaving lh.n plus all unused reservations is at most LOGBLOCKS, numbers are distinct, a commit runs with no operation open, and nobody sleeps without someone to wake it. |
| LogAdmission.PanicExactly | kernel/log.c:145-236 | In every interleaving end_op never panics and log_write panics if and only if the header is full; then every open operation has used its whole reservation. |
| LogAdmission.WithinReservation | kernel/log.c:206-236 | An operation with an unused slot can always write. |
| LogAdmission.AbsorbedWritePanics | kernel/log.c:221-230 | A run in which three operations used exactly their reservations and an absorbed write panics. |
| LogAdmission.BeginInv | kernel/log.c:126-143 | begin_op keeps the reservation invariant. |
| LogAdmission.WriteInv | kernel/log.c:206-236 | log_write keeps the reservation invariant. |
| LogAdmission.EndInv | kernel/log.c:145-165 | end_op keeps the reservation invariant. |
| LogAdmission.CommittedInv | kernel/log.c:167-175 | The end of a commit keeps the reservation invariant. |
| LogAdmission.ReachableInv | kernel/log.c:126-236 | The reservation invariant holds in every reachable state. |
| BufferCache.UnlinkRing | kernel/bio.c:128-129 | Bypassing a node leaves a doubly linked ring of the others in the same order. |
| BufferCache.PushRing | kernel/bio.c:130-133 | Linking a node after the head leaves a ring that starts with it. |
| BufferCache.FirstMatch | kernel/bio.c:65-73 | The forward scan finds the first buffer of the block in list order, if the list has one. |
| BufferCache.Victim | kernel/bio.c:75-87 | The backward scan finds the last unreferenced buffer in list order, if there is one. |
| BufferCache.ReleaseShaped | kernel/bio.c:114-137 | After brelse the list is still a permutation of all buffers. |
| BufferCache.BCache.constructor | kernel/bio.c:36-53 | binit builds the ring of all buffers, last one first. |
| BufferCache.BCache.ScanForward | kernel/bio.c:65-73 | Following next visits the list in order and finds the first buffer of the block. |
| BufferCache.BCache.ScanBackward | kernel/bio.c:75-87 | Following prev finds the last unreferenced buffer. |
| BufferCache.BCache.Bget | kernel/bio.c:58-89 | Reuses the buffer of the block or recycles the victim; fails, changing nothing, exactly when there is neither. |
| BufferCache.BCache.Brelse | kernel/bio.c:114-137 | Drops a reference; an unreferenced buffer moves to the front and the ring stays sound. |
| BufferCache.BCache.Bpin | kernel/bio.c:139-144 | One more reference, nothing else. |
| BufferCache.BCache.Bunpin | kernel/bio.c:146-151 | One reference less, nothing else. |
| CacheRuns.ReadsLastStore | kernel/bio.c:58-137 | In every run the holder of a filled buffer sees what the plain store has for the block it asked for; a store released unlogged and unwritten lasts there until the block is read from disk again. |
| CacheRuns.ReadsLastStored | kernel/bio.c:58-137 | In every run in which changed buffers are logged or written before release, what it sees is the last value stored to that block, by the events alone. |
| CacheRuns.CurIsLast | kernel/bio.c:91-137 | In such runs the plain store is, for every block, what was last stored. |
| CacheRuns.NeverRecycledInUse | kernel/bio.c:58-151 | In every run each block of a real device has at most one buffer and a buffer in use or pinned survives any bget. |
| CacheRuns.RecyclesOldest | kernel/bio.c:75-87 | In every run what bget recycles is the least recently released free buffer. |
| CacheRuns.GetFacts | kernel/bio.c:58-89 | bget finds the only buffer of a block or recycles one nobody uses, pins or has left unwritten. |
| CacheRuns.BGetInv | kernel/bio.c:58-89 | bget keeps reference counts exact and contents current. |
| CacheRuns.UnlockInv | kernel/bio.c:117-122 | The first half of brelse, releasesleep, keeps the run invariant, whatever state the buffer is left in. |
| CacheRuns.DerefInv | kernel/bio.c:124-136 | The second half, under bcache.lock, keeps it too, recency order included. |
| CacheRuns.UnpinInv | kernel/log.c:76-80 | install_trans drops a pin right after writing the buffer, so the disk has caught up. |
| CacheRuns.RunInv | kernel/bio.c:58-151 | The run invariant holds after every prefix of every run. |
| Blocks.WithBitOne | kernel/fs.c:76-78 | Setting or clearing one bit of a byte changes that bit alone. |
| Blocks.SetWordOne | kernel/fs.c:430-436 | Storing a little-endian word changes that word and no other. |
| Dinodes.InodeRoundTrip | kernel/fs.c:226-313 | What iupdate stores in a slot ilock reads back, and the other inodes of the block are untouched. |
| Dinodes.SyncedUpdate | kernel/fs.c:226-242 | iupdate brings its inode into step with the disk and keeps the others there. |
| FsModel.OwnershipExact | kernel/fs.c:66-106 | The invariant in plain terms: no block is in two slots, and the bitmap marks exactly metadata and owned blocks. |
| Dinodes.FreshInv | mkfs/mkfs.c:93-108 | A fresh disk satisfies the invariant, with its inodes in step. |
| Dinodes.DecodedSynced | kernel/fs.c:294-318 | Inodes are in step with the disk if and only if they are what the disk has. |
| FsModel.LinkedInv | kernel/fs.c:411-440 | Entering a fresh block into an empty slot keeps ownership, bitmap and contents. |
| FsModel.LinkedSlot | kernel/fs.c:411-440 | Linking fills its slot and leaves every other slot of every inode alone. |
| FsModel.GrownContents | kernel/fs.c:405-444 | bmap changes the contents of no file. |
| FsModel.StoredInv | kernel/fs.c:543-549 | Writing a data block touches no slot and no bitmap bit. |
| FsModel.WritingGrown | kernel/fs.c:539-551 | Allocation inside writei loses nothing of what is already written. |
| FsModel.WritingStored | kernel/fs.c:543-550 | Each chunk extends the written range by exactly its bytes. |
| FsModel.WritingEnds | kernel/fs.c:553-561 | Once the size covers the bytes that count, the file is its old contents with what was copied over it, and no other file has changed. |
| FsModel.SpliceReads | kernel/fs.c:494-562 | A splice reads back what was written, and every byte outside it as it was. |
| FsModel.StillUsed | kernel/fs.c:98-106 | While itrunc runs, the next block to free is still marked in use. |
| FsModel.TruncatingStep | kernel/fs.c:455-472 | Each step of itrunc clears the bits of exactly the slots it has passed. |
| FsModel.TruncatedInv | kernel/fs.c:446-476 | A finished truncation gave back every block of the file and only those. |
| FileSystem.FileSys.ScanBlock | kernel/fs.c:74-84 | The first clear bit of one bitmap block, or where its bits end. |
| FileSystem.FileSys.Balloc | kernel/fs.c:64-89 | Takes the lowest free block, marks it and zeroes it; 0 means every block is in use and nothing changed. |
| FileSystem.FileSys.Bfree | kernel/fs.c:91-106 | Clears exactly the bit of b; the panic happens exactly when it was clear. |
| FileSystem.FileSys.Iupdate | kernel/fs.c:222-242 | The inode on disk becomes the one in memory; no file, slot or bit changes. |
| FileSystem.FileSys.Mount | kernel/fs.c:43-51 | What a boot finds on a sound disk is a valid state. |
| FileSystem.FileSys.Ilock | kernel/fs.c:294-318 | Reads the inode last updated; the "no type" panic happens exactly for a free inode. |
| FileSystem.FileSys.AllocInto | kernel/fs.c:412-417 | balloc and linking: one empty slot filled, or a full disk and no change. |
| FileSystem.FileSys.Bmap | kernel/fs.c:402-444 | The address of a file block, allocating it and the indirect block if need be; an existing block is found without any change; 0 means a full disk; what is new belongs to that block or the indirect one. |
| FileSystem.FileSys.BmapIndirect | kernel/fs.c:420-441 | The same beyond the direct blocks. |
| FileSystem.FileSys.Itrunc | kernel/fs.c:446-476 | The file becomes empty, its blocks and no others are freed, other files are untouched, "freeing free block" does not happen, and only bitmap blocks and the inode block are logged. |
| FileSystem.FileSys.Readi | kernel/fs.c:494-519 | Returns the slice [off, off+n) clipped to the size, 32-bit overflow of off+n included; never allocates or changes anything. |
| FileSystem.FileSys.Writei | kernel/fs.c:528-562 | Refuses exactly the bad ranges; else the file is its old contents with the bytes copied over it at off, across direct and indirect blocks, growing by those that count, and no other file changes; it stops short exactly because the next chunk faults or has no block on a full disk, and then counts whole blocks; every block it changes is logged, except the one a fault leaves. |
| FileSystem.FileSys.WriteBlocks | kernel/fs.c:539-551 | The loop of writei: tot bytes count, up to a block boundary unless all or none do, w were copied, and why it stopped. |
| FileSystem.FileSys.WriteChunk | kernel/fs.c:540-550 | One turn of the loop, including the disk-full and failed-copy exits: a chunk counts whole, up to the end of its block or of the write, or not at all. |
| FileSystem.FileSys.CopyChunk | kernel/fs.c:543-550 | The copy into the block that bmap found: all of it and logged, or what arrived before the fault and not logged. |
| FileSystem.FileSys.Filewrite | kernel/file.c:148-173 | The chunks add up to one write at f->off; a short write has its exact reason and counts what its last transaction does; there is one transaction per chunk, each leaving a consistent file system, accounting for every block it changed, and logging at most MAXOPBLOCKS. |
| FileSystem.FileSys.WriteTransaction | kernel/file.c:159-164 | One chunk: the effect of writei with its reason for stopping, and at most MAXOPBLOCKS distinct blocks logged, whatever its offset and however large the bitmap. |
| WriteFaults.ReportExact | kernel/fs.c:539-561 | Unless the disk is full, writei reports exactly the bytes up to the last block boundary before the fault, and copies exactly those before the fault. |
| WriteFaults.FileReportExact | kernel/file.c:154-173 | The same for filewrite, block boundaries counted in the transaction in which the fault lies. |
| WriteFaults.WriteiHonest | kernel/fs.c:543-561 | Whatever the source holds, writei changes only what it reports, if and only if all of it can be read, or the fault is on a block boundary, or what is reported reaches the end of the file. |
| WriteFaults.FilewriteHonest | kernel/file.c:148-173 | The same for filewrite. |
| WriteFaults.HonestExactly | kernel/fs.c:545-548 | Bytes copied beyond those reported stay hidden for every source if and only if there are none or the reported ones reach the end of the file. |
| WriteFaults.WriteShows | kernel/fs.c:528-562 | Under that condition, taken before the call, the file is the splice of what writei reports. |
| WriteFaults.FaultShows | kernel/fs.c:545-548 | In any file system, two bytes written over a file of two, one of which can be read: nothing is reported and the file has changed. |
| WriteFaults.SmallFile | kernel/fs.c:528-562 | Such a file, on a disk of eight blocks. |
| WriteFaults.FaultRun | kernel/fs.c:528-562 | The run. |
| FileSystem.TouchedBound | kernel/file.c:149-153 | A write of at most three blocks logs at most four data blocks, the indirect block, the inode block and the bitmap blocks of at most four new ones: MAXOPBLOCKS in all. |
| FileSystem.NewBlocks | kernel/fs.c:402-444 | The blocks such a write adds are the indirect block and those of its range that were missing. |
| FileSystem.FileSys.Run | kernel/fs.c:446-562 | Every sequence of writes, partial ones included, truncations and reads keeps ownership exact, files without holes and inodes in step. |
| FsCrash.CrashConsistent | kernel/log.c:65-236 | At every point of every history of file operations, commits, crashes and recoveries, the disk holds the initial file system with exactly the committed transactions applied, and that is consistent; memory has its metadata. |
| FsCrash.BootMounts | kernel/fs.c:43-51 | Whatever a boot reads after any crash is a consistent file system. |
| FsCrash.FilesAtomic | kernel/log.c:117-204 | After any crash all files together are as before the interrupted transaction or as after it, byte for byte, except bytes in blocks that changed without being logged since the last boot and were not logged since. |
| FsCrash.WriteAtomic | kernel/file.c:159-165 | A write that is a transaction is on disk as a whole splice or not at all and other files are untouched, with the same exception. |
| FsCrash.StraysOnly | kernel/fs.c:545-550 | At every point of every history memory and disk agree on all blocks beyond the log but those. |
| FsCrash.ReadsWhole | kernel/fs.c:494-519 | A file that has none of those blocks is on disk entirely as stated. |
| FsCrash.StepStands | kernel/log.c:145-204 | One transaction, committed or cut off, with the boot that follows a crash, keeps disk and memory so. |
| FsCrash.AppliedMeta | kernel/log.c:194-204 | Committing the logged blocks brings all metadata on disk in step with memory, stray data or not. |
| FsCrash.MetaConsistent | kernel/fs.c:66-106 | Consistency depends on inode, bitmap and indirect blocks only. |
| FsCrash.OneOperation | kernel/fs.c:446-562 | What each file operation promises is what a transaction needs. |
| FsCrash.MoreOperations | kernel/log.c:126-165 | Operations that share a commit compose. |
| FsCrash.WordsInjective | kernel/log.c:100-115 | A block is determined by its words, as which the log handles it. |
| Kalloc.Kmem.constructor | kernel/kalloc.c:26-40 | kinit frees every page between end and PHYSTOP exactly once. |
| Kalloc.Kmem.Kfree | kernel/kalloc.c:46-63 | Pushes a managed page that is not already free. |
| Kalloc.Kmem.Kalloc | kernel/kalloc.c:68-82 | Pops a free page; fails exactly when there is none. |
| PageTable.EntryRoundTrip | kernel/riscv.h:358-369 | PA2PTE and PTE2PA round-trip beside the flags. |
| PageTable.PXDigits | kernel/riscv.h:371-380 | Below MAXVA the three indices are the base-512 digits of the page number. |
| PageTable.TranslateIsLeaf | kernel/vm.c:85-115 | The three-level tree refines the flat map: hardware translation of every address below MAXVA is its entry there. |
| PageTable.GrownFormed | kernel/vm.c:106-111 | Entering a zeroed table keeps the tree well formed. |
| PageTable.GrownLeaf | kernel/vm.c:106-111 | Entering a zeroed table changes no translation. |
| PageTable.PutLeaf | kernel/vm.c:166-166 | Writing a bottom-level entry changes that translation and no other. |
| UserMemory.Proc.Walk | kernel/vm.c:85-115 | Finds the table of va, creating tables only if asked; no translation changes; failure means unmapped, and no free page if creating. |
| UserMemory.Proc.Mappages | kernel/vm.c:140-174 | Maps exactly the range, or exactly the pages before the failure; Remap and NoMemory tell which failure; every other entry is unchanged. |
| UserMemory.Proc.MapPage | kernel/vm.c:161-167 | One page: the remap outcome exactly when the entry was valid. |
| UserMemory.Proc.Uvmunmap | kernel/vm.c:188-212 | Removes exactly the range; with do_free each user page in it returns to the allocator once, without it the pages end up with nobody. |
| UserMemory.Proc.UnmapPage | kernel/vm.c:200-211 | One page: absent tables and entries are skipped. |
| UserMemory.MapOwned | kernel/vm.c:166-166 | Mapping a page nobody owns keeps the page table and the owned pages in one-to-one correspondence. |
| UserMemory.DropOwned | kernel/vm.c:200-211 | Unmapping keeps that correspondence. |
| UserPages.AddPage | kernel/vm.c:227-238 | kalloc, fill, mappages, kfree on failure: one page added, or nothing changed and at most two pages were free; remap does not arise. |
| UserPages.Uvmalloc | kernel/vm.c:214-239 | Adds exactly the zeroed pages up to newsz with the permissions asked for; on any failure every translation and page is as before, and fewer than three free pages were there per page asked for. |
| UserPages.RolledBack | kernel/vm.c:228-237 | Unmapping what was added gives back the address space that was there before. |
| UserPages.Uvmdealloc | kernel/vm.c:242-257 | Unmaps exactly the pages between the rounded sizes. |
| UserPages.Vmfault | kernel/vm.c:448-473 | Backs an unmapped page below the size with a zeroed writable one; no byte reads differently; fails only out of range, if mapped, or out of memory. |
| UserPages.ZeroPageUnseen | kernel/vm.c:463-471 | Lazy allocation is invisible to every read. |
| CopyMemory.Uvmcopy | kernel/vm.c:290-324 | The child maps the same pages with the same flags and bytes, or no user page at all, and then fewer than three free pages were there per page; the parent is unchanged. |
| CopyMemory.CopyPage | kernel/vm.c:304-318 | One page of it, unmapped pages skipped; fails only with at most two free pages. |
| CopyMemory.Walkaddr | kernel/vm.c:117-138 | Succeeds exactly for mapped user pages below MAXVA. |
| CopyMemory.Copyout | kernel/vm.c:339-377 | Writes src at dst as one byte-range update, or a prefix of it up to a page that is out of range, not the user's, read-only or not allocatable. |
| CopyMemory.CopyoutPage | kernel/vm.c:349-375 | One page of it. |
| CopyMemory.StoreWrote | kernel/vm.c:370-370 | memmove into a mapped page is a byte-range update, because no other entry maps that page. |
| CopyMemory.Copyin | kernel/vm.c:379-404 | Returns exactly the bytes there, changing none; fails only at a page that is out of range, not the user's or not allocatable. |
| CopyMemory.CopyinPage | kernel/vm.c:385-401 | One page of it. |
| CopyMemory.ReadBack | kernel/vm.c:342-404 | What a copyout wrote is the only thing a copyin of that range can return. |
| Teardown.Freewalk | kernel/vm.c:259-278 | Frees exactly the table pages of the subtree; the "leaf" panic does not arise. |
| Teardown.FreeEntry | kernel/vm.c:266-275 | What freewalk meets at an entry: nothing, or a link to the next table, never a leaf. |
| Teardown.TrimStep | kernel/vm.c:266-272 | Freeing a child and zeroing its entry is one step towards the pruned tree. |
| Teardown.Uvmfree | kernel/vm.c:280-287 | Every page the address space held is free again. |
| Teardown.Uvmcreate | kernel/vm.c:176-186 | A blank root, or no change because no page is free. |
| Teardown.ProcPagetable | kernel/proc.c:183-215 | Maps trampoline and trapframe and nothing else, or returns every page, and then at most four were free. |
| Teardown.ProcFreepagetable | kernel/proc.c:217-225 | Every page of the page table and of user memory is free again. |
| ProcMemory.Growproc | kernel/proc.c:243-264 | Growth maps a zeroed page at every new page number, leaves every page there was, the rest of the last one included, and so changes no byte; or it changes nothing because the address space ends or free pages run short. A shrink drops whole pages; below zero it wraps and changes nothing. No user page lies above the new size. |
| ProcMemory.Sbrk | kernel/sysproc.c:39-65 | Returns the old size or changes nothing, with the cause; eager growth maps zeroed pages, lazy growth none, and fails exactly beyond TRAPFRAME; both leave the same bytes. |
| ProcMemory.ExtendedUnseen | kernel/vm.c:226-238 | Eagerly added pages read as unallocated ones do. |
| ProcMemory.DroppedBytes | kernel/vm.c:246-257 | Shrinking keeps every byte below the pages given up; those read as zero. |
| ProcMemory.Allocproc | kernel/proc.c:132-145 | A trapframe and a page table with the two fixed mappings, or every page back, and then at most five were free. |
| ProcMemory.Freeproc | kernel/proc.c:160-180 | Every page the process held is free again. |
| ProcMemory.CopiedBytes | kernel/vm.c:303-318 | Equal pages below the size and none above mean equal bytes everywhere. |
| ProcMemory.Fork | kernel/proc.c:275-304 | The child has the parent's pages, flags, bytes and size on pages that were free and apart from the parent's; or its slot is unused again and every page is back, because free pages ran short; the parent is untouched. |
| MemoryRuns.Machine.constructor | kernel/kalloc.c:26-40 | After boot every managed page is free and every slot unused. |
| MemoryRuns.Machine.ReadyAt | kernel/vm.c:216-324 | In every state of a run each process meets the preconditions of every operation. |
| MemoryRuns.Machine.Settle | kernel/kalloc.c:46-82 | An operation that keeps a process and the allocator together keeps every page with exactly one holder. |
| MemoryRuns.Machine.Step | kernel/vm.c:216-473 | sbrk, fault, copy, fork and exit keep the invariant, out of memory or not, and change no other process. |
| MemoryRuns.Machine.Run | kernel/vm.c:216-473 | In every run each managed page has exactly one holder and each process has its user pages below its size. |
| MemoryRuns.Machine.PagesConserved | kernel/kalloc.c:46-82 | Free pages, tables, user pages and trapframes always add up to all managed pages. |
| SleepLock.NoLostWakeup | kernel/proc.c:570-617 | In every interleaving, the holder sleeping elsewhere or preempted included, when a sleep lock is unlocked and its inner lock free, no process sleeps on it or is on its way to. |
| SleepLock.MutualExclusion | kernel/sleeplock.c:21-41 | In every interleaving at most one process holds the sleep lock, and it is the one recorded. |
| SleepLock.WokenBeforeRelease | kernel/sleeplock.c:33-41 | When releasesleep lets go of the inner lock and the sleep lock is free, nobody is left asleep. |
| SleepLock.GoLocks | kernel/sleeplock.c:21-41 | Each statement keeps the ownership of the inner lock and of the sleep lock exact. |
| SleepLock.GoOwn | kernel/proc.c:584-614 | Each statement keeps the ownership of every p->lock exact. |
| SleepLock.GoSleep | kernel/proc.c:584-614 | Each statement keeps every committed sleeper in reach of a holder or of a waker that has not passed it. |
| SleepLock.RunInv | kernel/proc.c:570-617 | The invariant holds after every prefix of every interleaving. |
| ProcTree.ParentsAlive | kernel/proc.c:327-445 | In every interleaving without an init exit, at every step, each runnable, running, sleeping or zombie process but init has a live parent. |
| ProcTree.ReapedOnce | kernel/proc.c:356-445 | No process is returned by wait twice, only exited ones are, and an exited one not yet returned is exactly one zombie in the table. |
| ProcTree.NoLostExit | kernel/proc.c:338-445 | In every interleaving, whenever wait_lock is free, no process sleeps in wait over a zombie child, its own or one given to init. |
| ProcTree.NextAsleep | kernel/proc.c:338-445 | Each step keeps it that only init, and only until it is woken, sleeps over a zombie child. |
| ProcTree.NextScan | kernel/proc.c:401-445 | The scan of wait has met no zombie child in the slots it has passed, and exit has woken the parent. |
| ProcTree.PidsUnique | kernel/proc.c:92-103 | In every run processes share a pid only if 2^32 or more births lie between them. |
| ProcTree.PidsShared | kernel/proc.c:92-103 | Two births have the same pid if and only if they are equal modulo 2^32. |
| ProcTree.SharedRun | kernel/proc.c:92-103 | In every table of three slots or more there is a run after which two live processes share a pid. |
| ProcTree.FailedForks | kernel/proc.c:269-303 | Forks that run out of memory use up pids and leave the table as it was. |
| ProcTree.ForkRun | kernel/proc.c:269-336 | A fork by init runs through and adds one runnable child. |
| ProcTree.NextTree | kernel/proc.c:327-396 | Each step keeps parents alive. |
| ProcTree.NextGive | kernel/proc.c:338-351 | reparent has given away the children in the slots it has passed. |
| ProcTree.NextTask | kernel/proc.c:269-336 | A child under construction has one maker and, once entered, that parent. |
| ProcTree.NextPid | kernel/proc.c:92-103 | Birth numbers stay unique and zombies are exactly the exited, unreaped ones. |
| ProcTree.RunInv | kernel/proc.c:327-445 | The invariant holds after every prefix of every interleaving. |
| VirtioQueue.Queue.AllocDesc | kernel/virtio_disk.c:155-166 | The lowest free descriptor, or none is free. |
| VirtioQueue.Queue.FreeDesc | kernel/virtio_disk.c:168-182 | Clears and frees one descriptor; panics exactly for no descriptor or a free one, changing nothing. |
| VirtioQueue.Queue.Alloc3Desc | kernel/virtio_disk.c:199-213 | Three distinct free descriptors, or the free flags exactly as before and fewer than three free. |
| VirtioQueue.Queue.Undo | kernel/virtio_disk.c:207-208 | The rollback restores the free flags. |
| VirtioQueue.Queue.FreeChain | kernel/virtio_disk.c:184-197 | Follows the chain and frees exactly its three descriptors, without a panic. |
| VirtioRuns.SectorExact | kernel/virtio_disk.c:218-218 | Sectors, computed in 32 bits, are twice the block number, and different for different blocks, exactly on disks of at most 2^31 blocks. |
| VirtioRuns.TriplesDisjoint | kernel/virtio_disk.c:226-289 | In every run requests in flight own disjoint triples, no buffer is in two of them, and free descriptors are exactly the unowned ones. |
| VirtioRuns.RingsInOrder | kernel/virtio_disk.c:271-323 | In every run, across any number of 16-bit wraps, the device takes the oldest announced head and the handler finds the oldest completion. |
| VirtioRuns.CompletionMatches | kernel/virtio_disk.c:235-323 | In every run a completion transfers between the buffer submitted and the sector of its block, and the interrupt for it finds status 0 and clears exactly that buffer. |
| VirtioRuns.NothingExcluded | kernel/virtio_disk.c:283-323 | The device may complete any request it took, the handler may run whenever the used index moved, and a woken caller may always finish. |
| VirtioRuns.DecodesRequest | kernel/virtio_disk.c:238-265 | Following the descriptors in memory the device finds exactly the request submitted. |
| VirtioRuns.IntrFinds | kernel/virtio_disk.c:312-320 | The entry the handler reads is the oldest unhandled completion, with status 0 and its buffer still waiting. |
| VirtioRuns.PrepareInv | kernel/virtio_disk.c:226-272 | Formatting a request keeps the invariant and overwrites no announced slot. |
| VirtioRuns.CompleteInv | kernel/virtio_disk.c:309-314 | A completion in any order keeps the invariant and overwrites no unhandled slot. |
| VirtioRuns.FinishInv | kernel/virtio_disk.c:283-291 | Freeing a finished chain by following its descriptors keeps the invariant. |
| VirtioRuns.ChainMayBeFreed | kernel/virtio_disk.c:184-197 | In every run the chain of a request in flight leads through its three descriptors, none of them free: all that freeing it asks for. |
| VirtioRuns.RunInv | kernel/virtio_disk.c:215-327 | The invariant holds after every prefix of every run. |
| Umalloc.FreedInv | user/umalloc.c:24-44 | free keeps the list circular, address-ordered and fully coalesced, and every unit in exactly one block. |
| Umalloc.FreedGap | user/umalloc.c:33-42 | After merging no two free blocks touch. |
| Umalloc.FreedLink | user/umalloc.c:33-42 | After linking the ring runs through base and the free blocks in order. |
| Umalloc.SearchStops | user/umalloc.c:30-32 | The search test holds at exactly one node, the one before the block. |
| Umalloc.Allocator.FindPrev | user/umalloc.c:30-32 | The search terminates at that node from wherever freep is. |
| Umalloc.Allocator.LinkIn | user/umalloc.c:33-42 | The four merge cases, as the code writes them. |
| Umalloc.Allocator.Free | user/umalloc.c:24-44 | The block leaves the live ones, every unit is kept and every other block is untouched. |
| Umalloc.Allocator.Morecore | user/umalloc.c:46-61 | At least nu units, at least 4096, join the free list, some free block then fits, and live blocks are unchanged; or nothing changes; overrun exactly when sbrk granted less than is recorded. |
| Umalloc.Allocator.Malloc | user/umalloc.c:63-90 | Hands out a new live block of exactly the units needed, or 0 when sbrk fails; asks for memory at most once and only when no free block is large enough; terminates; overruns exactly for a request beyond MAXREQUEST that sbrk was asked for. |
| Umalloc.Allocator.Serve | user/umalloc.c:74-89 | The search loop of malloc. |
| Umalloc.SbrkExact | user/umalloc.c:52-54 | The int argument of sbrk is right if and only if the request is at most MAXREQUEST; else it is too small. |
| Umalloc.SbrkShrinks | user/umalloc.c:52-54 | A request just beyond for which sbrk is asked to take memory away. |
| Umalloc.Allocator.Carve | user/umalloc.c:75-84 | Serves the request from a free block, whole or its tail. |
| Umalloc.TookInv | user/umalloc.c:76-77 | Unlinking a whole block keeps the invariant. |
| Umalloc.SplitInv | user/umalloc.c:79-81 | Carving off a tail keeps the invariant, and the tail is a new block. |
| Umalloc.GrownInv | user/umalloc.c:57-58 | A fresh area keeps the invariant as one block. |
| Umalloc.UnitsPositive | user/umalloc.c:69-69 | Enough units for the header and the bytes, and not one too many. |
| Umalloc.BlocksApart | user/umalloc.c:24-90 | Blocks, in use or free, never overlap. |
| Umalloc.UnitsConserved | user/umalloc.c:24-90 | Every unit of the heap is in exactly one block. |
| Umalloc.Run | user/umalloc.c:24-90 | All of this after every sequence of malloc and valid free. |
| ShellRender.RoundTrip | user/sh.c:333-452 | Every well-formed command tree parses back from its parenthesised rendering. |
| ShellRender.LineRoundTrip | user/sh.c:333-452 | Every command line of the grammar, with or without parentheses, parses from its text to the command it denotes. |
| ShellRender.RenderDenotes | user/sh.c:350-452 | Every well-formed tree is denoted by a line of the grammar. |
| ShellRender.LexSpelled | user/sh.c:271-314 | Tokens written out with a space behind each are read back. |
| ShellGrammar.AcceptsExactly | user/sh.c:333-452 | The parser accepts a line if and only if its tokens form a line of the grammar; every other line panics. |
| ShellGrammar.Accepts | user/sh.c:333-452 | A line of the grammar, however it is spaced, parses to the command it denotes: redirections in order, bars and semicolons to the right, each & on the pipeline before it. |
| ShellGrammar.LineReads | user/sh.c:350-365 | The same anywhere in a line, up to a closing parenthesis or the end. |
| ShellGrammar.PipelineReads | user/sh.c:367-378 | A pipeline of the grammar parses to its tree. |
| ShellGrammar.PartReads | user/sh.c:405-452 | A simple command or a parenthesised one parses to its tree. |
| ShellGrammar.ItemsRead | user/sh.c:435-450 | Arguments, and the redirections between them, are collected in order. |
| ShellGrammar.RdsRead | user/sh.c:380-403 | Redirections are collected in order with their files. |
| ShellGrammar.LineBack | user/sh.c:350-365 | What parseline accepts is a line of the grammar, with the tree it denotes. |
| ShellGrammar.PipelineBack | user/sh.c:367-378 | What parsepipe accepts is a pipeline. |
| ShellGrammar.PartBack | user/sh.c:405-452 | What parseexec accepts is a simple or a parenthesised command. |
| ShellGrammar.ItemsBack | user/sh.c:435-450 | What the argument loop accepts is at most MAXARGS - 1 arguments with redirections. |
| ShellGrammar.RdsBack | user/sh.c:380-403 | What parseredirs accepts is a list of redirections. |
| ShellTokens.TokensReadBack | user/sh.c:454-499 | After parsing any line and nulterminate, each argument and file name read as a C string is exactly its token. |
| ShellTokens.LineGood | user/sh.c:350-452 | Every argument and file name is a maximal run of word characters, and no command has more than MAXARGS - 1 arguments. |
| ShellTokens.EndsFit | user/sh.c:454-499 | Every terminator is at or before the end of the line. |
| ShellTokens.Nulterminate | user/sh.c:454-499 | Writes a NUL at the end of every word and nowhere else. |
| ShellTokens.NulArgs | user/sh.c:471-472 | The same for the arguments of one command. |
| ShellParser.GetToken | user/sh.c:271-314 | The token at a position: kind, extent and the position after it. |
| ShellParser.Peek | user/sh.c:316-326 | Skips whitespace and tells whether one of the characters follows. |
| ShellParser.Parseredirs | user/sh.c:380-403 | The loop computes Redirs, which RdsRead and RdsBack pin to the grammar. |
| ShellParser.Arguments | user/sh.c:435-450 | The loop computes Args, which ItemsRead and ItemsBack pin to the grammar, with the panics in order. |
| ShellParser.Parseexec | user/sh.c:421-452 | Computes ParseExec, which PartReads and PartBack pin to the grammar; terminates on every line. |
| ShellParser.Parseblock | user/sh.c:405-419 | Computes ParseBlock, the parenthesised case of the same. |
| ShellParser.Parsepipe | user/sh.c:367-378 | Computes ParsePipe, which PipelineReads and PipelineBack pin to the grammar. |
| ShellParser.Parseline | user/sh.c:350-365 | Computes ParseLine, which LineReads and LineBack pin to the grammar. |
| ShellParser.Parsecmd | user/sh.c:333-345 | Computes ParseCmd, which Accepts and AcceptsExactly pin to the grammar, leftovers refused. |
| ShellParser.WordStops | user/sh.c:302-305 | A word is followed by a delimiter or the end, and holds none. |
| Pipe.CountersExact | kernel/pipe.c:88-121 | Across 32-bit wrap the full and empty tests are exact and the difference of the counters is the number buffered. |
| Pipe.RingIndex | kernel/pipe.c:95-95 | The slot of a wrapped counter is the slot of the total. |
| Pipe.Ring.WriteBurst | kernel/pipe.c:82-100 | Appends exactly the bytes it advanced over; sleeps exactly on a full pipe and fails exactly when the reading end is closed or the caller is found killed, whenever that happens; a negative n asks for nothing. |
| Pipe.Ring.ReadBurst | kernel/pipe.c:112-133 | Delivers the oldest bytes, as many as fit; sleeps or fails exactly when the code says, losing nothing; a negative n takes nothing but may still sleep. |
| Pipe.Ring.Put | kernel/pipe.c:95-95 | One byte in, no buffered byte overwritten. |
| Pipe.Ring.Take | kernel/pipe.c:123-129 | The oldest byte out. |
| Pipe.Ring.Close | kernel/pipe.c:58-74 | Closes one end and touches no data. |
| Pipe.Ring.Run | kernel/pipe.c:76-134 | In every interleaving of bursts, what was buffered followed by what was put in is what came out followed by what is left, and at most PIPESIZE bytes are held; the pipe is what the bursts make of it. |
| Pipe.FirstInFirstOut | kernel/pipe.c:76-134 | The same as an equation on histories. |
| Pipe.Ring.Burst | kernel/pipe.c:58-134 | Each burst does to the pipe what its description as a step says. |
| PipeRuns.ReadersWoken | kernel/pipe.c:76-134 | In a run no reader ever sleeps over buffered bytes, or with no writer left, if and only if no burst of pipewrite that has put bytes in while a reader sleeps ends because the writer is found killed. |
| PipeRuns.LostExactly | kernel/pipe.c:82-87 | Exactly when a burst does that: a reader sleeps, the reading end is open, and the kill is first seen after the first byte and before the call is through or the pipe full. |
| PipeRuns.LostRun | kernel/pipe.c:82-87 | A run that leaves a reader asleep over a byte. |
| PipeRuns.WritersWoken | kernel/pipe.c:88-131 | In every run no writer sleeps while there is room, or with no reader left. |
| PipeRuns.ReadersStep | kernel/pipe.c:76-134 | Each step keeps readers waiting rightly if and only if it loses no wakeup. |
| PipeRuns.WritersStep | kernel/pipe.c:76-134 | Each step keeps writers waiting rightly. |
| PipeRuns.WriteEndMeans | kernel/pipe.c:82-98 | The end of a burst of pipewrite: killed or no reader, full, or through. |
| Filter.MaskOnlyGrows | kernel/sysproc.c:121-137 | In every run a mask only gains bits during the life of its process. |
| Filter.FrozenOnceBlocked | kernel/syscall.c:153-236 | In every run a mask with the setfilter bit never changes again. |
| Filter.DescendantsKeep | kernel/proc.c:276-290 | If a process has no pending child mask at step T, or one that covers its mask, then it and every descendant forked after T keep all bits it had at T. |
| Filter.ForkedKeeps | kernel/proc.c:276-290 | A child forked at once keeps the parent's bits if and only if that condition holds. |
| Filter.DescendantsBlocked | kernel/syscall.c:153-236 | What the process could not call at T, argument exceptions apart, no such descendant can call. |
| Filter.PendingMaskCanBeStale | kernel/sysproc.c:146-164 | A run in which the condition fails and the child lacks a bit of its parent. |
| Filter.ChildCovers | kernel/proc.c:276-283 | The mask given to the child covers the parent's if and only if there is no pending mask or the pending mask does. |
| Filter.CallRatchet | kernel/sysproc.c:121-164 | No system call clears a mask bit, and none changes a mask that blocks setfilter. |
| Filter.StepKeeps | kernel/proc.c:276-290 | One step keeps the bits of a process, of its pending mask and of the child it forks. |
| Filter.Proc.SetFilter | kernel/sysproc.c:121-137 | Accepts exactly the masks that clear no bit. |
| Filter.Proc.SetFilterChild | kernel/sysproc.c:146-164 | Accepts exactly the masks that cover the current mask, and leaves that mask alone. |
| Filter.Proc.Syscall | kernel/syscall.c:145-242 | Runs the handler exactly when the bit is clear or an argument exception applies. |
| Filter.Proc.Fork | kernel/proc.c:276-287 | The child gets the pending mask if there is one, else the parent's; the pending mask is used up. |

## Left out

- Boot, traps, interrupts, assembly, device registers, UART, console and printf.
- Memory ordering: fences and weak memory are not modelled; a spinlock is an atomic owner.
- Directories, path names, link counts, `ialloc`, `iget`, `iput` and the reclaiming of orphans at boot; file-descriptor tables; `exec`.
- `copyinstr`, `uvmclear`, `kvmmake`: they would add only easy members.
- The junk that `kfree` and `kalloc` write into pages: every user of a page overwrites it first.
- Saved registers, names and open files copied by `kfork`.
- The text of the path checks in `syscall.c`: they are the parameter `pass`.
- `virtio_disk_init`, notification registers, and the sleeping in `virtio_disk_rw` when no descriptors are free.
- A device that reports an error: completions carry status 0.
- Recursion depth and `malloc` failure in the shell parser, and the run of the parsed commands.
- FileSystem.FileSys.Run: operations follow one another; two inodes are not written at the same time.
- CacheRuns.ReadsLastStored: stated for runs that log or write a changed buffer before releasing it; `ReadsLastStore` covers the others.
- ProcTree.ReapedOnce: processes are told apart by birth number; `PidsShared` says when two have the same pid.
- Umalloc.Allocator.Malloc: what the code does to memory after an overrun is not modelled.
- UserPages.Vmfault: the page table argument is the process's own, as in every call but `exec`'s.
