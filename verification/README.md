# Verified models of the operating-systems labs

Dafny models of the two large systems in this repository, and proofs of what they are for: the xv6
kernel and user programs of lab 2 (`lab02/sistop-famaf-so25lab2g34`) and the FAT file system of
lab 3 (`lab03/sistop-famaf-so25lab3g34`). `dafny verify dfyconfig.toml` checks everything.

Code that changes things in place is a class whose methods are proved against functions of the old
state. Code that is about interleavings (locks, sleeping, the disk's queue) is a state machine in
which one step is one acquire, one release or one change of shared state, and the results hold of
every run of any number of processes and CPUs.

| files | model |
|---|---|
| `LogDisk`, `Log` | log.c: the on-disk redo log as functions on disks, and the code over them with a trace of every block write, so that a crash can be placed at any of them |
| `LogSpace` | log.c: begin_op's admission of concurrent operations, and who sleeps in it |
| `Bio`, `Pins` | bio.c: the least-recently-used buffer list in its linked form; the pins of `LogSpace`'s runs on top of it |
| `Inodes`, `Fs` | fs.c: who owns which block, the bytes of a file, readi, writei, itrunc, and what they log |
| `FileLog` | file.c: filewrite over `Fs` and `Log` together, and what a crash at any disk write leaves |
| `Paging`, `Vm`, `Spaces`, `UserMem` | kalloc.c, vm.c, proc.c, exec.c: three-level page tables in physical pages, the flat maps they stand for, all processes' address spaces over one free list, and the bytes that copyout and copyin move |
| `Umalloc` | umalloc.c: the Kernighan and Ritchie free list on headers in memory |
| `SleepWakeup`, `SemCalls` | proc.c, semaphore.c, sleeplock.c: sleep, wakeup, kill and the scheduler's hand-off under semaphores; what the calls return |
| `ExitWait`, `Outcomes`, `Marks` | proc.c: fork, exit, reparent, wait, kill and setkilled; whose child is whose, when wait sleeps, who is woken, who is marked as killed |
| `TokenRing` | pingpong.c, tateti.c: the semaphore ring, for any number of processes and any fork that fails |
| `VirtioPool`, `Virtio` | virtio_disk.c: the descriptor pool, the two rings, the device in any order of completion |
| `Grep` | grep.c: the backtracking matcher and the line buffer |
| `FatChain`, `FatBytes`, `FatEntry`, `FatFile` | fat_table.c, fat_file.c, fat_fuse_ops.c: cluster chains, the bytes on them, directory entries, and the file operations |
| `ByteSeq`, `Arith`, `Params` | shared definitions |

## Findings

Where the code does not do what it is for, the model keeps the code. Each item names the lemma
or contract with the exact condition, and where there is one the lemma with a concrete input.

- The log is one block short. `mkfs/mkfs.c:25` makes it LOGSIZE blocks, header included, while
  begin_op admits LOGSIZE logged blocks. Writes of new blocks within quota never panic if and only
  if the log has more than LOGSIZE blocks (`LogSpace.QuotaIsSafeIff`).
- log_write tests for a full log before it looks for the block, so that even a write it would
  absorb panics, exactly when the log is full (`LogSpace.WritePanics`; a run that gets there
  `LogSpace.AbsorbedWriteCanPanic`).
- NBUF equals LOGSIZE. The log's pins can take every buffer, so that bget panics, if and only if the
  log has more than LOGSIZE blocks (`LogSpace.AllLoggedIff`, `Pins.PinnedCache.PinsLeaveOne`; a run
  that does it `Pins.PinsTakeAll`). So the log of mkfs is safe from this, and the log that would
  mend the first item is not.
- sem_close does not look for sleepers. Closing under a process in sem_down's loop is the one step
  that breaks the invariant of the semaphores (`SleepWakeup.StepKeepsInvIff`): the process can
  come back, test for 0 only, and take a unit from the closed semaphore
  (`SleepWakeup.UncleanCloseUnderflows`; from an initial state `SleepWakeup.ClosedUnderSleeper`).
- kill(0) succeeds if there is an unused table entry, because unused entries have pid 0, and marks it.
  fork does not clear the mark, so that the process that gets the entry is marked from birth although
  nobody has killed it (`Marks.BornMarked`, a run from the start). A kill of pid 0 at an unused entry is
  the one step after which an unused entry is marked (`Marks.StepKeepsCleanIff`), a child is marked from
  birth if and only if its entry is (`Marks.BornMarkedIff`), and as long as no kill names pid 0 the marked
  processes are exactly those that a kill has found under their own pid, and those that have faulted, which
  setkilled marks (`Marks.MarksAreOwn`, `Marks.OnlyTheNamedAreKilled`).
- When a fork fails, pingpong and tateti exit without closing the semaphores. The processes that tateti has
  made by then wait for ever if and only if they want a second turn (`TokenRing.Progress`; a run
  `TokenRing.SecondForkFails`).
- malloc's unit count times 16 does not fit the int that sbrk takes. The block is inside the
  memory that sbrk returned if and only if its bytes fit (`Umalloc.BlockInsideIff`); a malloc
  that gets its memory from sbrk overclaims if and only if it asks for more than MAX_REQUEST bytes
  (`Umalloc.Heap.Malloc`; `Umalloc.LargestRequest`).
- fat_file_init looks up an entry before it can report a full volume. The entry lies inside the
  table if and only if there is a free cluster or the table has more than 0x0FFFFFFF entries
  (`FatFile.LookupInsideIff`, `FatFile.FullTableLookup`).
- A file's size is 32 bits wide and pwrite does not check it. What is written can be read back if
  and only if it ends below 2^32 (`FatFile.Volume.PWrite`, `FatFile.SizeIsExactIff`); a file that
  loses all its bytes is in `FatFile.AppendAtLimit`.
- write_dir_entry fails when the entry is not in the directory's first cluster, and no caller looks.
  The entry is on the disk afterwards if and only if it lies there, or was there before
  (`FatEntry.ReadBackIff`); a file that is made and never recorded is in `FatFile.FullDirectory`.
- unlink and rmdir of a file without clusters clear entry 0 of the table
  (`FatFile.Volume.Unlink`, `FatFile.Volume.FreeReserved`). Such a file can never be written: pwrite fails
  with EIO for a file without clusters, however many are free (`FatFile.Volume.PWrite`, `NoPlace`).
- truncate changes nothing, not even the size, exactly when the new size is beyond the old one or
  needs as many clusters (`FatFile.Volume.Truncate`).
- In grep some of the input is never read if and only if a line starts whose first 1023 characters
  have no newline before the first NUL, and that is not the end of the input (`Grep.Grep`, with
  `TooLong`; a line that is lost `Grep.LongLine`).

## Model

| member | source | states |
|---|---|---|
| `LogDisk.CrashAtomic` | lab02/sistop-famaf-so25lab2g34/kernel/log.c:69-203 | A commit stopped after any k block writes, crashed any number of times in later recoveries and then recovered once leaves every home block old (header not yet written) or every one new (header written); recovering again changes nothing |
| `LogDisk.CommitAtomic` | lab02/sistop-famaf-so25lab2g34/kernel/log.c:179-203 | All or nothing, decided by the header write, for a commit that stops after any k writes |
| `LogDisk.RecoveryRestarts` | lab02/sistop-famaf-so25lab2g34/kernel/log.c:69-83 | A recovery cut short after any write and started again ends on the same disk |
| `LogDisk.CrashesDoNotMatter` | lab02/sistop-famaf-so25lab2g34/kernel/log.c:117-123 | Any sequence of interrupted recoveries ends where one uninterrupted recovery ends |
| `LogDisk.CommitTraceAt` | lab02/sistop-famaf-so25lab2g34/kernel/log.c:194-203 | The i-th disk of the trace of a commit is the state after i+1 writes that CrashAtomic speaks of |
| `LogDisk.CommitTraceRecovers` | lab02/sistop-famaf-so25lab2g34/kernel/log.c:117-203 | Crash atomicity for any disk picked out of a trace that Log.Commit really leaves |
| `LogDisk.HeaderIs` | lab02/sistop-famaf-so25lab2g34/kernel/log.c:103-114 | Word 0 of the header block is n and the next n words are the block numbers, which is what read_head takes from it |
| `LogDisk.LogWrittenAt` | lab02/sistop-famaf-so25lab2g34/kernel/log.c:179-191 | The i-th logged block lies i + 1 blocks behind the header, and no other block changes |
| `LogDisk.InstalledAt` | lab02/sistop-famaf-so25lab2g34/kernel/log.c:69-83 | What goes home as the i-th logged block is the block i + 1 behind the header |
| `Log.Log.WriteHead` | lab02/sistop-famaf-so25lab2g34/kernel/log.c:103-114 | One block write that puts n and the block numbers into the header block and keeps its other words |
| `Log.Log.ReadHead` | lab02/sistop-famaf-so25lab2g34/kernel/log.c:87-97 | n and block[] become the list that the header block on the disk stands for |
| `Log.Log.WriteLog` | lab02/sistop-famaf-so25lab2g34/kernel/log.c:179-191 | The disk passes through exactly the states in which a prefix of the cached blocks is copied to the log |
| `Log.Log.InstallTrans` | lab02/sistop-famaf-so25lab2g34/kernel/log.c:69-83 | The disk passes through exactly the states in which a prefix of the logged blocks is home; unpins unless recovering |
| `Log.Log.RecoverFromLog` | lab02/sistop-famaf-so25lab2g34/kernel/log.c:117-123 | Start-up leaves the recovered disk, an empty log and the writes in the order CrashAtomic assumes |
| `Log.Log.constructor` | lab02/sistop-famaf-so25lab2g34/kernel/log.c:55-65 | initlog leaves an idle log and the recovered disk, through exactly the writes of a recovery |
| `Log.Log.Commit` | lab02/sistop-famaf-so25lab2g34/kernel/log.c:194-203 | The disk passes through exactly the write-log, header, install and erase states, and ends at the committed contents with an empty log |
| `Log.Log.LogWrite` | lab02/sistop-famaf-so25lab2g34/kernel/log.c:215-235 | A fresh block is appended and pinned, a logged one absorbed; exact panic conditions, the fullness test coming before absorption |
| `Log.Log.EndOp` | lab02/sistop-famaf-so25lab2g34/kernel/log.c:147-175 | What any reader sees of a home block is unchanged; the last operation out puts exactly that on the disk through a commit |
| `LogSpace.StepKeepsInv` | lab02/sistop-famaf-so25lab2g34/kernel/log.c:127-235 | Every critical section of the log lock keeps: logged blocks plus all unused quotas fit in LOGSIZE |
| `LogSpace.ReachableInv` | lab02/sistop-famaf-so25lab2g34/kernel/log.c:127-175 | In every interleaving quotas fit, commit runs with no operation outstanding, and end_op never panics |
| `LogSpace.RoomForOp` | lab02/sistop-famaf-so25lab2g34/kernel/log.c:127-142 | Any one running operation always has room for the rest of its quota |
| `LogSpace.BeginAdmitsIff` | lab02/sistop-famaf-so25lab2g34/kernel/log.c:127-142 | An operation is let in if and only if no commit runs and the blocks logged leave room for 10 of each operation and of the new one; one that sleeps has somebody to wait for |
| `LogSpace.LastOutCommits` | lab02/sistop-famaf-so25lab2g34/kernel/log.c:147-175 | The last operation out starts the commit, and no other one does |
| `LogSpace.LoggedIff` | lab02/sistop-famaf-so25lab2g34/kernel/log.c:147-235 | Over any run that does not panic the log has exactly the blocks written since a commit last emptied it |
| `LogSpace.OutstandingIs` | lab02/sistop-famaf-so25lab2g34/kernel/log.c:127-175 | The operations counted as outstanding are those that have begun and not ended |
| `LogSpace.NoLostWakeup` | lab02/sistop-famaf-so25lab2g34/kernel/log.c:127-175 | In every interleaving, as long as some process is asleep in begin_op its test would fail, and an operation or a commit is under way (or log_write has panicked) |
| `LogSpace.WritePanics` | lab02/sistop-famaf-so25lab2g34/kernel/log.c:215-235 | Whatever the log's size, a write within quota panics if and only if the log is full; with more than LOGSIZE blocks that only happens to a block that is already logged |
| `LogSpace.QuotaIsSafeIff` | lab02/sistop-famaf-so25lab2g34/kernel/log.c:127-235 | Fresh writes within quota never panic, over all runs, if and only if the log has more than LOGSIZE blocks |
| `LogSpace.AbsorbedWriteCanPanic` | lab02/sistop-famaf-so25lab2g34/kernel/log.c:215-235 | For every log size a reachable state in which an absorbed write within quota panics |
| `LogSpace.AllLoggedIff` | lab02/sistop-famaf-so25lab2g34/kernel/log.c:127-235 | Some run logs LOGSIZE blocks if and only if the log has more than LOGSIZE blocks |
| `Bio.ListRemove` | lab02/sistop-famaf-so25lab2g34/kernel/bio.c:128-129 | Unlinking keeps the doubly linked circle and takes exactly one buffer out |
| `Bio.ListInsert` | lab02/sistop-famaf-so25lab2g34/kernel/bio.c:130-133 | Linking in behind the head keeps the circle and puts exactly one buffer in front |
| `Bio.OneBufferPerBlock` | lab02/sistop-famaf-so25lab2g34/kernel/bio.c:59-89 | At most one buffer holds a given block |
| `Bio.Cache.constructor` | lab02/sistop-famaf-so25lab2g34/kernel/bio.c:37-53 | binit: one circle of all buffers, none holding a block, every block read from the disk |
| `Bio.Cache.Bget` | lab02/sistop-famaf-so25lab2g34/kernel/bio.c:59-89 | A cached block gains a reference, else the least recently released unreferenced buffer is reused; it panics exactly when there is none; no block changes its latest contents |
| `Bio.Cache.Find` | lab02/sistop-famaf-so25lab2g34/kernel/bio.c:66-73 | The forward scan finds the one buffer of the block, or none |
| `Bio.Cache.Oldest` | lab02/sistop-famaf-so25lab2g34/kernel/bio.c:77-87 | The backward scan finds the unreferenced buffer that was released longest ago, or none |
| `Bio.Cache.Recycle` | lab02/sistop-famaf-so25lab2g34/kernel/bio.c:79-82 | Reuse loses nothing: the latest contents of every block stay the same |
| `Bio.Cache.Bread` | lab02/sistop-famaf-so25lab2g34/kernel/bio.c:93-103 | The caller gets the latest contents of the block under the sleep-lock and gains one reference, unless every buffer is referenced; referenced buffers are not disturbed |
| `Bio.Cache.Fill` | lab02/sistop-famaf-so25lab2g34/kernel/bio.c:97-102 | A buffer that is not valid is filled from the disk with the latest contents |
| `Bio.Cache.Bwrite` | lab02/sistop-famaf-so25lab2g34/kernel/bio.c:107-112 | The disk block becomes the buffer, nobody sees other contents |
| `Bio.Cache.Drop` | lab02/sistop-famaf-so25lab2g34/kernel/bio.c:124-136 | A reference goes; the last one moves the buffer to the front and keeps recency order |
| `Bio.Cache.Bpin` | lab02/sistop-famaf-so25lab2g34/kernel/bio.c:140-144 | One reference more, contents and order kept |
| `Bio.Cache.Bunpin` | lab02/sistop-famaf-so25lab2g34/kernel/bio.c:147-151 | One reference less, contents and order kept |
| `Pins.PinnedCache.LogWrite` | lab02/sistop-famaf-so25lab2g34/kernel/log.c:215-235 | Panics exactly when the log is full; otherwise the first write of a block pins its buffer and a later one does not; the pins follow a run of LogSpace |
| `Pins.PinnedCache.Bread` | lab02/sistop-famaf-so25lab2g34/kernel/bio.c:59-103 | With log pins in place: latest contents, a pinned buffer never reused, panic exactly when every buffer is referenced |
| `Pins.PinnedCache.Brelse` | lab02/sistop-famaf-so25lab2g34/kernel/bio.c:117-137 | A logged buffer may be released unwritten: its pin keeps the reference count above zero |
| `Pins.PinnedCache.Install` | lab02/sistop-famaf-so25lab2g34/kernel/log.c:72-82 | bwrite, bunpin and brelse of a logged buffer: the home block has its contents and the unpinned buffer is clean |
| `Pins.PinnedCache.NothingDirty` | lab02/sistop-famaf-so25lab2g34/kernel/log.c:69-83 | Once the log is installed every buffer nobody holds agrees with the disk |
| `Pins.PinnedCache.PinsFillIff` | lab02/sistop-famaf-so25lab2g34/kernel/bio.c:77-88 | When only pins hold references, every buffer is referenced, so that bget panics on a new block, if and only if NBUF blocks are pinned |
| `Pins.PinnedCache.PinsLeaveOne` | lab02/sistop-famaf-so25lab2g34/kernel/bio.c:77-88 | On a log of at most LOGSIZE blocks, which is what mkfs makes, the pins always leave a buffer |
| `Pins.PinnedCache.PinEveryBuffer` | lab02/sistop-famaf-so25lab2g34/kernel/log.c:127-235 | On a longer log three operations within their quotas pin every buffer, and bread of one more block panics |
| `Pins.PinsTakeAll` | lab02/sistop-famaf-so25lab2g34/kernel/log.c:127-235 | The same from an empty cache |
| `Inodes.IndirectIsOwn` | lab02/sistop-famaf-so25lab2g34/kernel/fs.c:393-406 | No two inodes share an indirect block and no data block is one |
| `Inodes.PutWordIs` | lab02/sistop-famaf-so25lab2g34/kernel/fs.c:408-413 | A word of a block is stored in its four bytes, the lowest first, and no other byte changes |
| `Inodes.ByteIs` | lab02/sistop-famaf-so25lab2g34/kernel/fs.c:383-421 | Byte k of a file is in the block of addrs[k / 1024], or behind 12 blocks in the one a word of the block addrs[12] names; both are blocks of the disk |
| `Inodes.TakeDirect` | lab02/sistop-famaf-so25lab2g34/kernel/fs.c:388-395 | Storing a freshly allocated block in a direct or the indirect slot keeps block ownership |
| `Inodes.TakeIndirect` | lab02/sistop-famaf-so25lab2g34/kernel/fs.c:397-418 | Storing a freshly allocated block in a word of the indirect block keeps block ownership |
| `Inodes.NewBits` | lab02/sistop-famaf-so25lab2g34/kernel/fs.c:383-421 | If block pointers change for a range of one file only, the blocks newly marked as used are those of file blocks that meet the range, and the indirect block when there was none and the range reaches behind the direct blocks |
| `Inodes.TakesJoin` | lab02/sistop-famaf-so25lab2g34/kernel/fs.c:506-539 | Two such changes one after the other, for ranges within a third, are one for that range |
| `Inodes.WriteData` | lab02/sistop-famaf-so25lab2g34/kernel/fs.c:515-532 | Writing a data block changes no block pointer of any inode |
| `Inodes.PokeBytes` | lab02/sistop-famaf-so25lab2g34/kernel/fs.c:515-532 | A write within one block changes exactly those bytes of that file and no byte of another |
| `Inodes.DropDirect` | lab02/sistop-famaf-so25lab2g34/kernel/fs.c:432-437 | A direct block freed is allocated, the inode's own, and nobody else's |
| `Inodes.DropIndirect` | lab02/sistop-famaf-so25lab2g34/kernel/fs.c:439-446 | A word's block freed is allocated and the inode's own; earlier words may dangle until the indirect block goes |
| `Inodes.DropBlock` | lab02/sistop-famaf-so25lab2g34/kernel/fs.c:447-449 | Freeing the indirect block restores full ownership |
| `Fs.Volume.constructor` | lab02/sistop-famaf-so25lab2g34/mkfs/mkfs.c:93-108 | With the meta blocks in front marked as used, as mkfs places them, and no inode in use, the invariant holds and every file is empty |
| `Fs.Volume.BlocksHold` | lab02/sistop-famaf-so25lab2g34/kernel/fs.h:42-51 | A block of the bitmap has the bits of 8192 blocks, a block of inodes 16 of them |
| `Fs.Volume.Balloc` | lab02/sistop-famaf-so25lab2g34/kernel/fs.c:66-88 | The first free block, zeroed and marked, or 0 exactly when none is free |
| `Fs.Volume.Bmap` | lab02/sistop-famaf-so25lab2g34/kernel/fs.c:383-421 | The block of a file block, allocated on demand; existing mappings stay; 0 only on a full disk; which blocks are logged; no pointer of another file block changes, and no block is taken but that one and the indirect block on the way to it |
| `Fs.Volume.Readi` | lab02/sistop-famaf-so25lab2g34/kernel/fs.c:472-496 | As many bytes as were asked for and the file has from off on, each the byte of the file at its place; none past the end or when off + n wraps around; nothing is allocated |
| `Fs.Volume.Slice` | lab02/sistop-famaf-so25lab2g34/kernel/fs.c:478-481 | The same as a law of the bytes returned: how many, and which |
| `Fs.Volume.Writei` | lab02/sistop-famaf-so25lab2g34/kernel/fs.c:506-539 | src[..r] replaces the bytes at off, every other file keeps its bytes, r is short only if no block is free and the file has come to end there, at the end of its last block, so never over bytes the file has; every block that changes is logged, only bitmap, inode and file blocks are, and for 3 blocks of bytes at most MAXOPBLOCKS; no block is taken but for file blocks that meet the bytes written (one more byte, when it is short and had to stop for want of a block), the pointers of all other file blocks, 0 or not, stay |
| `Fs.Volume.ReadBack` | lab02/sistop-famaf-so25lab2g34/kernel/fs.c:472-539 | readi after writei returns what was written, and of the other bytes what it returned before |
| `Fs.Volume.Itrunc` | lab02/sistop-famaf-so25lab2g34/kernel/fs.c:426-453 | Exactly the inode's blocks become free, bfree never meets a free one, other files keep their bytes; logged are the inode's block and exactly the bitmap blocks with the bits cleared |
| `Fs.FewFreedBits` | lab02/sistop-famaf-so25lab2g34/kernel/fs.c:90-105 | Those are at most one for each 8192 blocks of the disk |
| `Fs.Volume.WriteChunk` | lab02/sistop-famaf-so25lab2g34/kernel/file.c:157-174 | A prefix of the chunk is written and the offset advances by it; it is short only if no block is free and the file has come to end there, at the end of its last block; all blocks that change are logged, and at most MAXOPBLOCKS, and no block taken that the bytes do not need |
| `FileLog.HomeSame` | lab02/sistop-famaf-so25lab2g34/kernel/fs.c:66-88 | A block that was not logged holds the same bytes, bits or inodes as before |
| `FileLog.ChangesCovered` | lab02/sistop-famaf-so25lab2g34/kernel/fs.c:506-539 | What writei logs covers all that it changes on the disk, and lies outside the log |
| `FileLog.CommitSettles` | lab02/sistop-famaf-so25lab2g34/kernel/log.c:117-203 | A crash at any write of a commit, and any crashes in the recoveries after it, leave the file system before the transaction or after it, as whole images |
| `FileLog.GroupSettles` | lab02/sistop-famaf-so25lab2g34/kernel/log.c:117-235 | Group commit: a crash at any write of the commit leaves the changes of all operations since the last commit, or none of them |
| `FileLog.LoggedVolume.LogBlocks` | lab02/sistop-famaf-so25lab2g34/kernel/log.c:215-235 | After the log_writes of a transaction the log carries exactly its blocks, with the contents they have in the end |
| `FileLog.LoggedVolume.CommitBlocks` | lab02/sistop-famaf-so25lab2g34/kernel/log.c:147-203 | end_op puts the new image on the disk; every disk on the way settles on the old image up to the header write, and on the new one from there on |
| `FileLog.LoggedVolume.Transaction` | lab02/sistop-famaf-so25lab2g34/kernel/file.c:162-168 | begin_op, writei, end_op: admitted, never a panic, and every disk on the way settles on the image before up to the header write, and on the one after from there on |
| `FileLog.LoggedVolume.FileWrite` | lab02/sistop-famaf-so25lab2g34/kernel/file.c:135-181 | A prefix of src is written in chunks of 3072 bytes, all of it unless no block is free and the file has come to end there, at the end of its last block, the offset lies past the end or the next chunk would end past 268 blocks, so that bytes the file has can always be written over; each transaction logs at most MAXOPBLOCKS blocks; a crash at any disk write leaves the file as the transactions left it whose headers were written by then; no block is taken that the bytes do not need |
| `FileLog.CrashesInOrder` | lab02/sistop-famaf-so25lab2g34/kernel/file.c:135-181 | The later the crash in the trace of a filewrite, the later the transaction it leaves |
| `FileLog.Durable` | lab02/sistop-famaf-so25lab2g34/kernel/log.c:147-175 | Between transactions every disk block is as bread shows it, whatever crashes follow: what filewrite has returned for is not lost |
| `FileLog.Boot` | lab02/sistop-famaf-so25lab2g34/mkfs/mkfs.c:93-108 | A file system and a log that satisfy all this together |
| `Paging.WordFields` | lab02/sistop-famaf-so25lab2g34/kernel/riscv.h:341-352 | The fields of an entry can be read back from its 64-bit word |
| `Paging.PathOfAddress` | lab02/sistop-famaf-so25lab2g34/kernel/riscv.h:354-357 | PX takes nine bits each of the address from bits 12, 21 and 30 up |
| `Paging.TranslationIs` | lab02/sistop-famaf-so25lab2g34/kernel/vm.c:86-103 | What an address translates to: the entries at its three indices, each in the page the one before names, and nothing as soon as one is not valid |
| `Paging.PathJoin` | lab02/sistop-famaf-so25lab2g34/kernel/riscv.h:354-363 | A virtual page number is recovered from its three PX indices |
| `Paging.JoinPath` | lab02/sistop-famaf-so25lab2g34/kernel/riscv.h:354-363 | Three indices below MAXVA are recovered from the page number they form |
| `Paging.OnPath` | lab02/sistop-famaf-so25lab2g34/kernel/vm.c:86-103 | The tables walk passes through are this address space's own, each in the one place that leads to it |
| `Paging.DataMappedOnce` | lab02/sistop-famaf-so25lab2g34/kernel/vm.c:143-165 | A data page is mapped at most once over all address spaces |
| `Paging.LeafWrite` | lab02/sistop-famaf-so25lab2g34/kernel/vm.c:143-192 | Writing a leaf entry changes the translation of one virtual page of one address space and no other |
| `Paging.EntryFlags` | lab02/sistop-famaf-so25lab2g34/kernel/vm.c:337-346 | The trees stay well formed when an entry changes its permissions and stays a leaf or a link |
| `Paging.LinkTableKeepsLeaf` | lab02/sistop-famaf-so25lab2g34/kernel/vm.c:95-99 | Linking in a fresh table changes no translation |
| `Paging.DataIsMapped` | lab02/sistop-famaf-so25lab2g34/kernel/vm.c:226-249 | Every data page is mapped somewhere: none is leaked |
| `Vm.RolledBack` | lab02/sistop-famaf-so25lab2g34/kernel/vm.c:226-249 | Taking back a partial allocation restores the flat maps, empty tables aside |
| `Vm.TablesJoin` | lab02/sistop-famaf-so25lab2g34/kernel/vm.c:86-103 | Of calls for ranges of pages within a larger one, none makes a table that the larger range does not need: a table below the root serves 2^18 pages, one below that 512 |
| `Vm.MappedIsOwn` | lab02/sistop-famaf-so25lab2g34/kernel/vm.c:171-192 | What an address space maps is its own data or a page outside the pool |
| `Vm.PagesAreEnough` | lab02/sistop-famaf-so25lab2g34/kernel/riscv.h:338-338 | The pages of a size hold its bytes, and one page less does not |
| `Vm.TakenDown` | lab02/sistop-famaf-so25lab2g34/kernel/vm.c:292-297 | Unmapping everything and freeing the tables frees exactly the address space's pages |
| `Vm.Machine.constructor` | lab02/sistop-famaf-so25lab2g34/kernel/kalloc.c:27-31 | kinit: exactly the pages from the first one on are free |
| `Vm.Machine.Kalloc` | lab02/sistop-famaf-so25lab2g34/kernel/kalloc.c:69-82 | The top of the free list filled with junk, or none exactly when it is empty |
| `Vm.Machine.Kfree` | lab02/sistop-famaf-so25lab2g34/kernel/kalloc.c:47-63 | The page, filled with junk and a link to the list before, joins the free list at its head; other pages keep their contents and use |
| `Vm.Machine.FreeRange` | lab02/sistop-famaf-so25lab2g34/kernel/kalloc.c:34-40 | Exactly the pages of the range join the free list, in order |
| `Vm.Machine.Walk` | lab02/sistop-famaf-so25lab2g34/kernel/vm.c:86-103 | The place of the leaf entry of a page; allocation adds only empty tables, two at most and only ones on the way to the page, and fails only without memory |
| `Vm.Machine.Walkaddr` | lab02/sistop-famaf-so25lab2g34/kernel/vm.c:109-126 | The physical page of a valid user page, else none |
| `Vm.Machine.Uvmclear` | lab02/sistop-famaf-so25lab2g34/kernel/vm.c:337-346 | Exactly the leaf entry of the page loses PTE_U; it translates as before, and no other entry and no page that is not a table changes |
| `Vm.Machine.Mappages` | lab02/sistop-famaf-so25lab2g34/kernel/vm.c:143-165 | The range maps to consecutive physical pages with perm, on failure a prefix of it; no other translation changes; no table is made that is not on the way to a page of the range |
| `Vm.Machine.Uvmunmap` | lab02/sistop-famaf-so25lab2g34/kernel/vm.c:171-192 | Exactly the range loses its translations and, if asked, its data pages become free |
| `Vm.Machine.Uvmcreate` | lab02/sistop-famaf-so25lab2g34/kernel/vm.c:197-205 | An empty address space, or none exactly when no page is free |
| `Vm.Machine.Uvmalloc` | lab02/sistop-famaf-so25lab2g34/kernel/vm.c:226-249 | New zeroed pages of its own with the permissions asked for, or on failure the flat maps as they were and no data page taken; no failure with three pages free for each one asked for; no table is made that is not on the way to one of these pages |
| `Vm.Machine.Uvmdealloc` | lab02/sistop-famaf-so25lab2g34/kernel/vm.c:256-267 | Exactly the pages above the new size go and become free |
| `Vm.Machine.Uvmcopy` | lab02/sistop-famaf-so25lab2g34/kernel/vm.c:306-333 | The child has the parent's contents and permissions in pages of its own, or on failure the flat maps as they were; no failure with three pages free for each page of the parent; no table is made that is not on the way to one of these pages |
| `Vm.Machine.Freewalk` | lab02/sistop-famaf-so25lab2g34/kernel/vm.c:272-287 | All tables below become free, nothing else changes, and the leaf panic is not met |
| `Vm.Machine.Uvmfree` | lab02/sistop-famaf-so25lab2g34/kernel/vm.c:292-297 | Exactly the address space's data pages and tables become free; other address spaces stand and their pages keep their contents |
| `Spaces.CreatedSpace` | lab02/sistop-famaf-so25lab2g34/kernel/vm.c:197-205 | A new page table leaves every address space well formed |
| `Spaces.GrownSpace` | lab02/sistop-famaf-so25lab2g34/kernel/proc.c:260-275 | Growing, or failing to grow, leaves every address space well formed with its size |
| `Spaces.ShrunkSpace` | lab02/sistop-famaf-so25lab2g34/kernel/proc.c:260-275 | Shrinking leaves every address space well formed with its size |
| `Spaces.FreedSpace` | lab02/sistop-famaf-so25lab2g34/kernel/proc.c:156-172 | Freeing one address space leaves the others well formed |
| `Spaces.StepKeepsInv` | lab02/sistop-famaf-so25lab2g34/kernel/proc.c:110-326 | Spawn, grow, shrink, copy, stores to user memory, the allocations and the cleared page of exec, and exit keep all spaces well formed and lose no page, on success and on failure |
| `Spaces.RunKeepsInv` | lab02/sistop-famaf-so25lab2g34/kernel/proc.c:110-326 | So does every run of them |
| `Spaces.ViewKept` | lab02/sistop-famaf-so25lab2g34/kernel/proc.c:110-326 | Nothing but a process's own stores and exec, and no call however it ends, changes contents or permissions of a page that it keeps |
| `Spaces.RunKeepsView` | lab02/sistop-famaf-so25lab2g34/kernel/proc.c:110-326 | Isolation over runs: whatever the other processes do and store, and whatever a process is run beside, its pages hold and permit what they did |
| `Spaces.EveryPageComesBack` | lab02/sistop-famaf-so25lab2g34/kernel/vm.c:197-333 | After any run, execs included, every space left meets uvmfree's conditions, so freewalk never meets a leaf, and once all processes have exited exactly the pages free at the start are free, each once on the list |
| `Spaces.OnFreeList` | lab02/sistop-famaf-so25lab2g34/kernel/kalloc.c:47-82 | The free list holds exactly the free pages, once each |
| `Spaces.Processes.Spawn` | lab02/sistop-famaf-so25lab2g34/kernel/proc.c:110-150 | allocproc's page table has the effect of a spawn step, or nothing happens because no page is free |
| `Spaces.Processes.Growproc` | lab02/sistop-famaf-so25lab2g34/kernel/proc.c:260-275 | growproc has the effect of a grow step: the size is the one asked for, but for a process that gives back more than it has, which keeps what it has and is told success; new pages are zeroed and may be written, kept pages have contents and permissions as before; -1 only when growing with fewer than three pages free for each one asked for |
| `Spaces.Processes.Allocproc` | lab02/sistop-famaf-so25lab2g34/kernel/exec.c:60-85 | exec's uvmalloc has the effect of an alloc step: the pages up to the new size are zeroed, with the permissions asked for, and nothing is taken away; it fails only for size 0 or with fewer than three pages free for each one asked for |
| `Spaces.Processes.Clearpage` | lab02/sistop-famaf-so25lab2g34/kernel/exec.c:86-86 | exec's uvmclear has the effect of a clear step, and the page is one that is mapped, so that it does not panic |
| `Spaces.Processes.Copyproc` | lab02/sistop-famaf-so25lab2g34/kernel/proc.c:294-299 | fork's uvmcopy has the effect of a copy step: each page of the child holds what the parent's holds, with the parent's permissions, in a page of its own; it fails only with fewer than three pages free for each |
| `Spaces.Processes.Freeproc` | lab02/sistop-famaf-so25lab2g34/kernel/proc.c:156-172 | freeproc has the effect of an exit step |
| `Spaces.Processes.Fork` | lab02/sistop-famaf-so25lab2g34/kernel/proc.c:280-326 | A child as large as the parent whose pages hold what the parent's hold, with the same permissions, or on failure the processes as before; all other processes keep their memory; no failure with more than three pages free for each page of the parent |
| `UserMem.Copyout` | lab02/sistop-famaf-so25lab2g34/kernel/vm.c:352-371 | The bytes of src, up to the first address that is not on a page for the user, replace those at dstva in the memory of the process, whether or not PTE_W is set; 0 if and only if these are all; nothing else in physical memory changes |
| `UserMem.Copyin` | lab02/sistop-famaf-so25lab2g34/kernel/vm.c:377-396 | The bytes at srcva, up to the first address that is not on a page for the user, are in the buffer, whose other bytes stay; 0 if and only if these are all; no page changes |
| `UserMem.Copyinstr` | lab02/sistop-famaf-so25lab2g34/kernel/vm.c:403-439 | 0 if and only if a string with its NUL in at most max bytes lies at srcva on pages for the user; then exactly it is in the buffer, and otherwise the bytes up to max or the first address that is not |
| `UserMem.AllReachedIff` | lab02/sistop-famaf-so25lab2g34/kernel/vm.c:352-396 | After any run, copyout and copyin do all of len bytes if and only if these end within the last page of the process and none of them is on a page that exec has closed with uvmclear, in this process or in one that it was forked from |
| `UserMem.RunKeepsUser` | lab02/sistop-famaf-so25lab2g34/kernel/exec.c:79-86 | After any run the pages of a process that are not for the user are exactly those that an uvmclear has closed since they were added, and that fork has handed on; pages given back and added again are open |
| `UserMem.ReachedIff` | lab02/sistop-famaf-so25lab2g34/kernel/vm.c:352-396 | In any state, copyout and copyin do all of len bytes if and only if these end within the last page and meet no closed page |
| `UserMem.ReadBack` | lab02/sistop-famaf-so25lab2g34/kernel/vm.c:352-396 | copyin of what copyout has put there gives it back |
| `UserMem.ChildMemory` | lab02/sistop-famaf-so25lab2g34/kernel/proc.c:294-299 | The memory of a forked child is, byte for byte, that of its parent |
| `UserMem.GrownMemory` | lab02/sistop-famaf-so25lab2g34/kernel/proc.c:260-275 | Every byte of the pages that growproc and exec add to the memory of a process is 0; what lay behind the old end on its last page stays there |
| `UserMem.StoreBytes` | lab02/sistop-famaf-so25lab2g34/kernel/vm.c:364-364 | A memmove to a page of a process changes exactly these bytes of its memory, so no page is at two addresses |
| `UserMem.ByteOfIs` | lab02/sistop-famaf-so25lab2g34/kernel/vm.c:364-364 | Byte k of a word is its bits from 8 k on: memory is little-endian |
| `Umalloc.BlocksDisjoint` | lab02/sistop-famaf-so25lab2g34/user/umalloc.c:25-90 | Two blocks, free or allocated, share no unit |
| `Umalloc.UnitInOneBlock` | lab02/sistop-famaf-so25lab2g34/user/umalloc.c:25-90 | A unit was obtained from sbrk exactly when one block contains it, and then only one does |
| `Umalloc.SingleWrap` | lab02/sistop-famaf-so25lab2g34/user/umalloc.c:30-32 | The circular list has one wrap point, at its highest block |
| `Umalloc.TouchIsSuccessor` | lab02/sistop-famaf-so25lab2g34/user/umalloc.c:33-42 | Free blocks that touch are list neighbours, so free finds every possible merge |
| `Umalloc.FreedIsMerged` | lab02/sistop-famaf-so25lab2g34/user/umalloc.c:33-43 | free's assignments amount to linking in and merging on both sides |
| `Umalloc.TakeWhole` | lab02/sistop-famaf-so25lab2g34/user/umalloc.c:76-77 | Unlinking an exact fit keeps the heap |
| `Umalloc.TakeTail` | lab02/sistop-famaf-so25lab2g34/user/umalloc.c:78-82 | Carving the tail off a larger block keeps the heap; the new block was not allocated before |
| `Umalloc.GrowStep` | lab02/sistop-famaf-so25lab2g34/user/umalloc.c:47-61 | Memory from sbrk becomes one new block |
| `Umalloc.UnitsFit` | lab02/sistop-famaf-so25lab2g34/user/umalloc.c:69-69 | The units of a request hold its bytes, with no unit to spare |
| `Umalloc.AtLeastIs` | lab02/sistop-famaf-so25lab2g34/user/umalloc.c:52-54 | morecore asks for the units of the request, or for 4096 if that is more |
| `Umalloc.RequestIsExactIff` | lab02/sistop-famaf-so25lab2g34/user/umalloc.c:47-69 | The units of a request fit in an int of bytes if and only if it is at most MAX_REQUEST |
| `Umalloc.BlockInsideIff` | lab02/sistop-famaf-so25lab2g34/user/umalloc.c:47-61 | The block morecore labels lies inside the memory sbrk returned if and only if its bytes fit in an int |
| `Umalloc.LargestRequestOverclaims` | lab02/sistop-famaf-so25lab2g34/user/umalloc.c:47-69 | For 2^32 - 1 bytes memory ends one unit behind a header that claims 268435457 |
| `Umalloc.LargestRequest` | lab02/sistop-famaf-so25lab2g34/user/umalloc.c:64-90 | A program whose first request is the largest one loses its heap unless sbrk fails |
| `Umalloc.BlockFits` | lab02/sistop-famaf-so25lab2g34/user/umalloc.c:64-90 | An allocated block lies inside memory |
| `Umalloc.Heap.Free` | lab02/sistop-famaf-so25lab2g34/user/umalloc.c:25-44 | Exactly the block given back stops being allocated, merged with free neighbours; no other block changes |
| `Umalloc.Heap.FindPlace` | lab02/sistop-famaf-so25lab2g34/user/umalloc.c:30-32 | The search ends at the last free block below the one given back |
| `Umalloc.Heap.Malloc` | lab02/sistop-famaf-so25lab2g34/user/umalloc.c:64-90 | A new block of exactly the units asked for, no other block changed, or 0 only when sbrk was asked and refused; sbrk is asked only if no free block is large enough; with memory from sbrk it overclaims if and only if nbytes > MAX_REQUEST |
| `Umalloc.Heap.Search` | lab02/sistop-famaf-so25lab2g34/user/umalloc.c:74-89 | The first block large enough in list order, asking sbrk at most once and only if there is none |
| `Umalloc.Heap.Take` | lab02/sistop-famaf-so25lab2g34/user/umalloc.c:75-85 | The block found leaves the list, whole or by its tail |
| `Umalloc.Heap.Sbrk` | lab02/sistop-famaf-so25lab2g34/kernel/sysproc.c:39-51 | The break moves by the int given, also backwards; only an extension fails |
| `Umalloc.Heap.Morecore` | lab02/sistop-famaf-so25lab2g34/user/umalloc.c:47-61 | The free list gains room for the request, or memory is refused, or the header overclaims |
| `Umalloc.Heap.NewBlock` | lab02/sistop-famaf-so25lab2g34/user/umalloc.c:54-58 | The header overclaims if and only if the bytes asked of sbrk exceed an int |
| `SleepWakeup.StepIsAtomic` | lab02/sistop-famaf-so25lab2g34/kernel/semaphore.c:41-130 | A step changes at most the value of the semaphore whose lock its process holds: down takes a unit that is there, up gives one back |
| `SemCalls.TestDecides` | lab02/sistop-famaf-so25lab2g34/kernel/semaphore.c:41-130 | The test of each call under the lock: which values make it fail, sleep or succeed, and the value and the result afterwards |
| `SemCalls.WhoWakes` | lab02/sistop-famaf-so25lab2g34/kernel/proc.c:566-604 | A sleeper becomes runnable by the look of a wakeup on its semaphore or of its kill, and by nothing else |
| `SemCalls.CallReturns` | lab02/sistop-famaf-so25lab2g34/kernel/semaphore.c:41-130 | From the call to the return, however it is interleaved, the caller changes the value at most once, as the call says, and is told success if and only if it has |
| `SemCalls.BadCallFails` | lab02/sistop-famaf-so25lab2g34/kernel/semaphore.c:29-52 | A call on no semaphore, and sem_open of a negative value, fail and change nothing |
| `SemCalls.NoDeadlock` | lab02/sistop-famaf-so25lab2g34/kernel/proc.c:445-604 | As long as some process is in a call and not asleep, a step of a process in a call, or a scheduler's release, can be made |
| `SleepWakeup.WakesHolder` | lab02/sistop-famaf-so25lab2g34/kernel/semaphore.c:86-107 | The step of the lock holder keeps: a process asleep on a semaphore with units to take has a wakeup scan still ahead of it |
| `SleepWakeup.StepKeepsInvIff` | lab02/sistop-famaf-so25lab2g34/kernel/proc.c:445-604 | Every step of sleep, wakeup, kill, scheduler, semaphores and sleep-locks keeps the invariant except a sem_close under a process in sem_down's loop |
| `SleepWakeup.RunKeepsInv` | lab02/sistop-famaf-so25lab2g34/kernel/proc.c:445-604 | So does every run without such a close |
| `SleepWakeup.NoLostWakeup` | lab02/sistop-famaf-so25lab2g34/kernel/semaphore.c:86-130 | In every interleaving without such a close: nobody sleeps, or is about to, on a semaphore with units while no wakeup is coming, and no value is below closed |
| `SleepWakeup.UncleanCloseUnderflows` | lab02/sistop-famaf-so25lab2g34/kernel/semaphore.c:66-83 | From every state of the invariant in which sem_close runs under a process in sem_down's loop a run ends with a value below closed |
| `SleepWakeup.LocksGiven` | lab02/sistop-famaf-so25lab2g34/kernel/proc.c:482-604 | Whatever p->lock sections processes are in, they can all be finished, one after the other, without a new one |
| `SleepWakeup.Resumes` | lab02/sistop-famaf-so25lab2g34/kernel/proc.c:445-499 | A scheduler hands p->lock to the woken process, which comes back from sched |
| `SleepWakeup.Underflows` | lab02/sistop-famaf-so25lab2g34/kernel/semaphore.c:110-130 | Back in the loop it takes a unit from the closed semaphore |
| `SleepWakeup.ClosedUnderSleeper` | lab02/sistop-famaf-so25lab2g34/kernel/semaphore.c:41-130 | A run from the initial state that ends with the value -2 |
| `ExitWait.NotHolder` | lab02/sistop-famaf-so25lab2g34/kernel/proc.c:331-435 | Only the holder of wait_lock changes parents and makes or reaps zombies |
| `ExitWait.ZombieGone` | lab02/sistop-famaf-so25lab2g34/kernel/proc.c:373-386 | A zombie whose lock is free has left its kernel stack |
| `ExitWait.StepKeepsInv` | lab02/sistop-famaf-so25lab2g34/kernel/proc.c:280-612 | Every step of fork, exit, reparent, wait, wakeup, kill, setkilled and the schedulers keeps the lock, family, scan and pid invariants |
| `ExitWait.RunKeepsInv` | lab02/sistop-famaf-so25lab2g34/kernel/proc.c:280-612 | So does every run |
| `ExitWait.NoLostExit` | lab02/sistop-famaf-so25lab2g34/kernel/proc.c:331-435 | In every interleaving, whenever wait_lock is free nobody asleep in wait has a zombie child, and every child has a parent that can still wait |
| `ExitWait.ReapedOnce` | lab02/sistop-famaf-so25lab2g34/kernel/proc.c:347-435 | Each pid is reaped at most once, only after exiting, and no exit is forgotten |
| `ExitWait.ReapedByParent` | lab02/sistop-famaf-so25lab2g34/kernel/proc.c:391-424 | Only the current parent reaps, and only a zombie off its stack |
| `Outcomes.SleepsWithChild` | lab02/sistop-famaf-so25lab2g34/kernel/proc.c:391-434 | In every run a process that goes to sleep in wait has a child, and none that is a zombie |
| `Outcomes.WaitDecides` | lab02/sistop-famaf-so25lab2g34/kernel/proc.c:426-434 | After a scan without a zombie wait gives up if and only if the caller has no child or was killed, and sleeps otherwise |
| `Outcomes.WhoChangesParent` | lab02/sistop-famaf-so25lab2g34/kernel/proc.c:280-435 | A parent changes only when fork takes its new child, exit hands a child to init, or wait frees a zombie of its own |
| `Outcomes.ForkTakes` | lab02/sistop-famaf-so25lab2g34/kernel/proc.c:110-128 | allocproc looks at each entry once, takes the first it finds unused, with a pid nobody has or had, and fails without one |
| `Outcomes.ForkStarts` | lab02/sistop-famaf-so25lab2g34/kernel/proc.c:316-324 | What fork makes runnable is the entry it made, with its own pid and the caller as its parent, and nothing else changes |
| `Outcomes.ZombieHasNoChild` | lab02/sistop-famaf-so25lab2g34/kernel/proc.c:331-386 | A process that is a zombie has no children left |
| `Outcomes.WhoIsKilled` | lab02/sistop-famaf-so25lab2g34/kernel/proc.c:586-612 | In one step an entry is marked only where a kill has found the pid it looks for, or by setkilled of its own process, and the mark goes when the entry is freed, and only then |
| `Outcomes.KillMarks` | lab02/sistop-famaf-so25lab2g34/kernel/proc.c:586-604 | kill marks the entry with the pid, wakes it if it sleeps and returns; any other entry it leaves as it was and goes on |
| `Outcomes.KillFinds` | lab02/sistop-famaf-so25lab2g34/kernel/proc.c:586-604 | From call to return, however it is interleaved, kill of any pid ends with 0 at an entry with that pid, marked, which is an unused one if and only if the pid is 0, or with -1, and then no process has the pid if it is negative or was given out before the call |
| `Outcomes.WhoWakes` | lab02/sistop-famaf-so25lab2g34/kernel/proc.c:566-604 | A sleeper becomes runnable by the look of a wakeup on its channel or of a kill of its pid, and by nothing else |
| `Marks.StepKeepsCleanIff` | lab02/sistop-famaf-so25lab2g34/kernel/proc.c:586-612 | The one step after which an unused entry is marked is that of a kill of pid 0 at an unused entry |
| `Marks.ZeroMarks` | lab02/sistop-famaf-so25lab2g34/kernel/proc.c:586-604 | That step marks the entry, which stays unused, and the kill is about to return 0 |
| `Marks.BornMarkedIff` | lab02/sistop-famaf-so25lab2g34/kernel/proc.c:122-128 | The process fork takes an entry for is marked from birth if and only if the entry is |
| `Marks.MarksAreOwn` | lab02/sistop-famaf-so25lab2g34/kernel/proc.c:280-612 | Over any run without kills of pid 0 no unused entry is ever marked, and a process is marked if and only if, under the pid it has, it was marked before, or a kill found it in the run, or it faulted in the run |
| `Marks.OnlyTheNamedAreKilled` | lab02/sistop-famaf-so25lab2g34/kernel/proc.c:586-612 | From the start, without kills of pid 0, every marked entry is a process, and either a kill in the run has named its pid and found it there, or it has faulted in the run |
| `Marks.BornMarked` | lab02/sistop-famaf-so25lab2g34/kernel/proc.c:110-604 | In any table of more than one entry, kill(0) and then fork by initproc make a marked child with pid 2, which no kill has named |
| `Outcomes.NoDeadlock` | lab02/sistop-famaf-so25lab2g34/kernel/proc.c:280-612 | As long as some process is in the kernel and not asleep, a step of such a process, or a scheduler's release, can be made |
| `TokenRing.RunKeepsInv` | lab02/sistop-famaf-so25lab2g34/user/tateti.c:28-77 | Every run, forks that fail included, keeps the token invariant: one token, turn counters in step, the output so far |
| `TokenRing.OutputOrder` | lab02/sistop-famaf-so25lab2g34/user/tateti.c:28-77 | For any number of processes the output is a prefix of count rounds of the words, down to the character, and all of it when the semaphores can be closed |
| `TokenRing.CatIs` | lab02/sistop-famaf-so25lab2g34/user/tateti.c:28-77 | What one round prints: the words in a row, with nothing between them |
| `TokenRing.RoundsAre` | lab02/sistop-famaf-so25lab2g34/user/tateti.c:28-77 | Rounds come one after the other, and one round is all words in a row |
| `TokenRing.RoundIs` | lab02/sistop-famaf-so25lab2g34/user/pingpong.c:39-50 | A round more of two words is these two behind the rounds before, and of three words these three |
| `TokenRing.RoundsLength` | lab02/sistop-famaf-so25lab2g34/user/tateti.c:28-77 | r rounds are r times as long as the words are together |
| `TokenRing.RoundsAt` | lab02/sistop-famaf-so25lab2g34/user/tateti.c:28-77 | Which character of which word is at which place of the output |
| `TokenRing.PingPongOrder` | lab02/sistop-famaf-so25lab2g34/user/pingpong.c:27-59 | pingpong prints "ping\n\tpong\n" over and over however it is scheduled, at most count times, and exactly count times when it closes the semaphores |
| `TokenRing.TatetiOrder` | lab02/sistop-famaf-so25lab2g34/user/tateti.c:28-77 | tateti prints "TA TE TI\n" over and over however it is scheduled, at most count times, and exactly count times when it closes the semaphores |
| `TokenRing.OneToken` | lab02/sistop-famaf-so25lab2g34/user/tateti.c:28-77 | One token, in a semaphore or with the one process that prints |
| `TokenRing.CloseIsLast` | lab02/sistop-famaf-so25lab2g34/user/pingpong.c:56-59 | sem_close runs only when every other process was waited for and everything is printed |
| `TokenRing.Progress` | lab02/sistop-famaf-so25lab2g34/user/tateti.c:28-77 | Until the semaphores are closed some process can go on, if and only if it is not so that a fork has failed and each process made has had its one turn; then nothing is closed, and who wants a second turn waits for ever |
| `TokenRing.SecondForkFails` | lab02/sistop-famaf-so25lab2g34/user/tateti.c:52-55 | With three processes or more and two rounds or more, a run in which the second fork fails and the first child ends up asleep for ever |
| `VirtioPool.Pool.AllocDesc` | lab02/sistop-famaf-so25lab2g34/kernel/virtio_disk.c:157-166 | The first free descriptor, or -1 exactly when there is none |
| `VirtioPool.Pool.FreeChain` | lab02/sistop-famaf-so25lab2g34/kernel/virtio_disk.c:186-197 | Exactly the descriptors of the chain become free |
| `VirtioPool.Pool.Alloc3Desc` | lab02/sistop-famaf-so25lab2g34/kernel/virtio_disk.c:202-213 | Three descriptors, or none and the pool as before |
| `Virtio.InFlightBound` | lab02/sistop-famaf-so25lab2g34/kernel/virtio_disk.c:202-230 | At most two requests are in flight, on the eight descriptors |
| `Virtio.RingWrite` | lab02/sistop-famaf-so25lab2g34/kernel/virtio_disk.c:271-277 | A ring entry written does not overwrite a pending one, though the counters wrap |
| `Virtio.RingPublish` | lab02/sistop-famaf-so25lab2g34/kernel/virtio_disk.c:271-277 | The counter bump appends it to the pending ones |
| `Virtio.PerformingIs` | lab02/sistop-famaf-so25lab2g34/kernel/virtio_disk.c:237-269 | The device, which asks for the directions and lengths the specification gives, carries out the request as made, whatever else is in flight |
| `Virtio.SeeingIs` | lab02/sistop-famaf-so25lab2g34/kernel/virtio_disk.c:295-327 | The interrupt handler finds the finished request's own entry with status 0 |
| `Virtio.ModifyKeepsInv` | lab02/sistop-famaf-so25lab2g34/kernel/virtio_disk.c:216-292 | A buffer that no call uses may be changed at any time |
| `Virtio.StepKeepsInv` | lab02/sistop-famaf-so25lab2g34/kernel/virtio_disk.c:216-327 | Every driver, device and interrupt step keeps the invariant and does not panic |
| `Virtio.RunKeepsInv` | lab02/sistop-famaf-so25lab2g34/kernel/virtio_disk.c:216-327 | So does every run |
| `Virtio.DescriptorSafety` | lab02/sistop-famaf-so25lab2g34/kernel/virtio_disk.c:157-327 | In every run the eight descriptors are split between free ones and the three of each active request, and neither ring holds more than two entries |
| `Virtio.OneStageOn` | lab02/sistop-famaf-so25lab2g34/kernel/virtio_disk.c:216-327 | A request goes once through posted, taken, performed, used and seen |
| `Virtio.ContentsChange` | lab02/sistop-famaf-so25lab2g34/kernel/virtio_disk.c:216-327 | Which steps change buffers or the disk: the device carrying out a request changes its block or its buffer, a change from outside one buffer that no call uses, and every other step neither |
| `Virtio.ReturnIsDone` | lab02/sistop-famaf-so25lab2g34/kernel/virtio_disk.c:283-292 | On return buffer and block agree, a write has stored what the caller passed in, exactly its chain becomes free, and no buffer and no block of the disk changes in that step |
| `Virtio.CallDoes` | lab02/sistop-famaf-so25lab2g34/kernel/virtio_disk.c:216-292 | From the call to the return, whatever happens in between, a write leaves in the block what the buffer held at the call, and a read leaves in the buffer what the block held |
| `Virtio.OnlyOwnSteps` | lab02/sistop-famaf-so25lab2g34/kernel/virtio_disk.c:216-233 | A process without a request at the device changes only by its own steps |
| `Virtio.ReturnFreesChain` | lab02/sistop-famaf-so25lab2g34/kernel/virtio_disk.c:186-197 | What a return frees is the chain that free_chain follows |
| `Virtio.ThreeWhenFree` | lab02/sistop-famaf-so25lab2g34/kernel/virtio_disk.c:202-233 | A request sleeps for want of descriptors only when fewer than three are free |
| `Virtio.SubmitsIff` | lab02/sistop-famaf-so25lab2g34/kernel/virtio_disk.c:202-233 | The request is formatted if and only if three descriptors are free, and otherwise nothing changes |
| `Virtio.RequestGoesOn` | lab02/sistop-famaf-so25lab2g34/kernel/virtio_disk.c:216-327 | Wherever a request is, the step that takes it on, or frees the lock for it, can be made |
| `Virtio.NoLostWakeup` | lab02/sistop-famaf-so25lab2g34/kernel/virtio_disk.c:164-327 | In every interleaving nobody sleeps on &disk.free[0] while three descriptors are free, nor on a buffer whose request the interrupt has seen |
| `Grep.MatchHere` | lab02/sistop-famaf-so25lab2g34/user/grep.c:84-95 | True if and only if the text can be split as the pattern items say, which EndIs, PlainIs and StarIs pin down character by character of the pattern |
| `Grep.EndIs` | lab02/sistop-famaf-so25lab2g34/user/grep.c:86-91 | The empty pattern matches anywhere, a closing $ at the end of the text only |
| `Grep.PlainIs` | lab02/sistop-famaf-so25lab2g34/user/grep.c:92-94 | Any other character that no * follows, wherever it stands in a pattern with or without *, takes one character of the text, that one or, for ., any |
| `Grep.RunIs` | lab02/sistop-famaf-so25lab2g34/user/grep.c:84-95 | A run of such characters in front of more pattern is matched one by one |
| `Grep.MatchStar` | lab02/sistop-famaf-so25lab2g34/user/grep.c:98-105 | True if and only if some number of repetitions leaves a match |
| `Grep.Match` | lab02/sistop-famaf-so25lab2g34/user/grep.c:72-81 | True if and only if some part of the text is described by the pattern, which StarlessIs and FoundIs pin down |
| `Grep.StarlessIs` | lab02/sistop-famaf-so25lab2g34/user/grep.c:72-95 | A pattern without * is found exactly where its characters are, . being any one, behind ^ only at the start and with $ only at the end |
| `Grep.StarIs` | lab02/sistop-famaf-so25lab2g34/user/grep.c:98-105 | c* stands for any number of c, or of any characters if c is ., before the rest of the pattern |
| `Grep.FoundIs` | lab02/sistop-famaf-so25lab2g34/user/grep.c:72-105 | A pattern with a * is found where its characters in front agree with the start of the text behind ^, and otherwise with some place of it, then come the repetitions, and then the rest |
| `Grep.SelectedIs` | lab02/sistop-famaf-so25lab2g34/user/grep.c:22-27 | What is to be printed, line by line: a line with its newline if the pattern is found in it, and nothing otherwise |
| `Grep.SelectedEnds` | lab02/sistop-famaf-so25lab2g34/user/grep.c:22-27 | Characters behind the last newline are not printed |
| `Grep.Grep` | lab02/sistop-famaf-so25lab2g34/user/grep.c:11-34 | Whatever read returns, exactly the selected lines of what was read, up to the first NUL, are printed; some input is never read if and only if a line is too long for the buffer |
| `Grep.LongLine` | lab02/sistop-famaf-so25lab2g34/user/grep.c:11-34 | A line of 1024 characters that matches is not printed, and its last character is never read |
| `Grep.StoppedIff` | lab02/sistop-famaf-so25lab2g34/user/grep.c:17-33 | The loop stops before the end of the input exactly at a line whose end does not fit behind its start |
| `Grep.PrintLines` | lab02/sistop-famaf-so25lab2g34/user/grep.c:20-28 | The complete lines in the buffer are printed if selected; what is left has no newline that strchr can see |
| `Grep.MatchLine` | lab02/sistop-famaf-so25lab2g34/user/grep.c:22-27 | A line is printed with its newline if and only if it matches |
| `FatChain.ChainsDisjoint` | lab03/sistop-famaf-so25lab3g34/fat_table.c:16-27 | Chains are acyclic and disjoint |
| `FatChain.MarksAre` | lab03/sistop-famaf-so25lab3g34/fat_table.h:15-18 | The marks 0x0FFFFFF8 to 0x0FFFFFFF end a chain, and a cluster has no owner if and only if its entry is 0 or the bad mark 0x0FFFFFF7 |
| `FatChain.ExtendTable` | lab03/sistop-famaf-so25lab3g34/fat_file.c:564-580 | Appending a free cluster keeps the table well formed |
| `FatChain.CreateTable` | lab03/sistop-famaf-so25lab3g34/fat_file.c:233-275 | A new one-cluster chain keeps it |
| `FatChain.CutTable` | lab03/sistop-famaf-so25lab3g34/fat_file.c:534-552 | Freeing the tail of a chain keeps it |
| `FatBytes.ShiftAndMask` | lab03/sistop-famaf-so25lab3g34/fat_table.c:33-44 | Index and mask are quotient and remainder by the cluster size |
| `FatBytes.CapIs` | lab03/sistop-famaf-so25lab3g34/fat_table.c:69-72 | len clusters hold len times the cluster size |
| `FatBytes.ClusterOffsetIs` | lab03/sistop-famaf-so25lab3g34/fat_table.c:69-72 | Cluster 2 starts where the data area does, and the others follow it |
| `FatBytes.ByteAtIs` | lab03/sistop-famaf-so25lab3g34/fat_table.c:69-105 | Byte k of a chain is on the disk at the start of the data area, plus its cluster's place, plus its place in the cluster |
| `FatBytes.Locate` | lab03/sistop-famaf-so25lab3g34/fat_table.c:33-105 | Every byte of a chain is in one cluster at one offset |
| `FatBytes.WriteChunk` | lab03/sistop-famaf-so25lab3g34/fat_file.c:608-630 | A chunk changes exactly its own bytes of its own chain |
| `FatBytes.OtherCluster` | lab03/sistop-famaf-so25lab3g34/fat_file.c:608-630 | It changes no byte in another cluster |
| `FatFile.NextInChain` | lab03/sistop-famaf-so25lab3g34/fat_table.c:16-27 | get_next follows the chain to its end mark |
| `FatFile.FreeFromIs` | lab03/sistop-famaf-so25lab3g34/fat_table.c:51-67 | The scan ends at the first free entry, which is a cluster or the end of them |
| `FatFile.GrewOne` | lab03/sistop-famaf-so25lab3g34/fat_file.c:564-580 | Appending the first free cluster, marked 0x0FFFFFFF, changes the entries of it and of the last cluster and no other |
| `FatFile.GrewJoin` | lab03/sistop-famaf-so25lab3g34/fat_file.c:582-630 | Appending again and again takes the free clusters in ascending order, and changes no other entry |
| `FatFile.LookupInsideIff` | lab03/sistop-famaf-so25lab3g34/fat_file.c:240-246 | The entry fat_file_init looks up lies inside the table if and only if a cluster is free or the table is larger than the end mark |
| `FatFile.FullTableLookup` | lab03/sistop-famaf-so25lab3g34/fat_file.c:240-246 | For every number of clusters and every length of the table up to the end-of-chain mark, a full table on which the lookup is outside |
| `FatFile.SizeIsExactIff` | lab03/sistop-famaf-so25lab3g34/fat_file.c:631-633 | The size stored is where the bytes end if and only if the write ends below 2^32; from there on it is 2^32 less |
| `FatFile.AppendAtLimit` | lab03/sistop-famaf-so25lab3g34/fat_file.c:582-641 | On a volume with room, one byte appended to a file of 2^32 - 1 bytes is written and leaves a file of no bytes |
| `FatFile.PrefixContent` | lab03/sistop-famaf-so25lab3g34/fat_file.c:512-558 | The first bytes of a file depend only on its first clusters |
| `FatFile.TailIsCut` | lab03/sistop-famaf-so25lab3g34/fat_file.c:530-552 | What truncate leaves of the table: the last cluster kept ends the chain, those behind it are free, no other entry changes |
| `FatFile.Volume.AppendLast` | lab03/sistop-famaf-so25lab3g34/fat_file.c:582-641 | One byte appended to any file of 2^32 - 1 bytes with room for it leaves a file of no bytes |
| `FatFile.Volume.NextFree` | lab03/sistop-famaf-so25lab3g34/fat_table.c:51-67 | The first free cluster, or the end mark exactly when none is free |
| `FatFile.Volume.Seek` | lab03/sistop-famaf-so25lab3g34/fat_table.c:94-105 | The cluster of the chain at the offset; the end mark just behind it |
| `FatFile.Volume.NextOrNew` | lab03/sistop-famaf-so25lab3g34/fat_file.c:564-580 | The next cluster of the chain, or the first free one appended to it with the mark 0x0FFFFFFF, no other entry of the table changing; 0 only when no cluster is free |
| `FatFile.Volume.NeededIs` | lab03/sistop-famaf-so25lab3g34/fat_file.c:516-519 | As many clusters as hold the bytes, but at least one |
| `FatFile.Volume.PWrite` | lab03/sistop-famaf-so25lab3g34/fat_file.c:582-641 | The written prefix of buf replaces the bytes at offset, and is all that fits in the file's clusters and the free ones, the last of which is filled when it is short; both errors exactly when; no cluster more than the bytes written need, but for one that an empty write at the end of a full chain takes, and none for bytes inside the chain; each one taken is the first that is free, and no other entry of the table changes; the entry is written into the parent, no other file changes and nothing in front of the data area; what was written can be read back if and only if it ends below 2^32 |
| `FatFile.Volume.WroteWhole` | lab03/sistop-famaf-so25lab3g34/fat_file.c:582-641 | The file afterwards reads as the old one with data over it if and only if the write ends below 2^32 |
| `FatFile.Volume.PRead` | lab03/sistop-famaf-so25lab3g34/fat_file.c:470-510 | As many bytes as were asked for and the file has from offset on, each the byte of the file at its place; a read that returns any writes the entry into the parent and changes nothing else |
| `FatFile.Volume.Truncate` | lab03/sistop-famaf-so25lab3g34/fat_file.c:512-558 | Acts exactly when fewer clusters are needed, and then keeps the first offset bytes, frees the tail and writes the entry into the parent; otherwise not even the size changes |
| `FatFile.Volume.Unlink` | lab03/sistop-famaf-so25lab3g34/fat_fuse_ops.c:424-526 | Exactly the file's chain becomes free, its entry in the parent is marked deleted and other files keep their bytes; a file without clusters clears entry 0 instead |
| `FatFile.Volume.FreeReserved` | lab03/sistop-famaf-so25lab3g34/fat_fuse_ops.c:446-453 | The freeing loop started at cluster 0 clears exactly that entry |
| `FatFile.Volume.constructor` | lab03/sistop-famaf-so25lab3g34/fat_file.c:233-275 | A volume with a root directory and a file of any length satisfies the invariant |
| `FatFile.Volume.Create` | lab03/sistop-famaf-so25lab3g34/fat_file.c:233-275 | A file is made exactly when a cluster is free, a directory with a cleared cluster; on a full volume the exact outcome by the table's length and contents, clearing included |
| `FatFile.Volume.Mknod` | lab03/sistop-famaf-so25lab3g34/fat_fuse_ops.c:321-384 | The file, then its entry with its start cluster and size 0 in the parent; no other file changes |
| `FatFile.Volume.ClearCluster` | lab03/sistop-famaf-so25lab3g34/fat_file.c:216-231 | All bytes of the cluster are 0 and no other file changes |
| `FatFile.Volume.WriteDirEntry` | lab03/sistop-famaf-so25lab3g34/fat_file.c:340-364 | Exactly the 32 bytes at 32 times the position change, or none if that is not below the cluster size; no other file changes |
| `FatEntry.EntryRoundTrip` | lab03/sistop-famaf-so25lab3g34/fat_file.c:69-97 | The start cluster, split in two, and the size are read back from the entry as they were written |
| `FatEntry.EntryFields` | lab03/sistop-famaf-so25lab3g34/fat_file.h:43-60 | Where start cluster and size lie in an entry, lowest byte first, and the byte that marks a deleted file |
| `FatEntry.WholeEntry` | lab03/sistop-famaf-so25lab3g34/fat_file.c:340-364 | An entry that starts in the first cluster lies in it, for clusters of whole entries |
| `FatEntry.ReadBackIff` | lab03/sistop-famaf-so25lab3g34/fat_file.c:340-364 | The entry is on the disk afterwards if and only if 32 times its position is below the cluster size, or it was there before; other entries stay |
| `FatFile.FullDirectory` | lab03/sistop-famaf-so25lab3g34/fat_fuse_ops.c:355-384 | A file is made whose entry is not written anywhere |

## Left out

Contracts that say less than one might expect:

- Spaces.Processes.Growproc: only sizes up to MAXVA; beyond it walk panics. The trampoline and trapframe mappings at the top of every space, and the trapframe page itself, are not modelled, so neither is the panic of mapping over them.
- Spaces.Processes.Copyproc: the child's old space must be empty, as it is in fork.
- Spaces.Processes.Allocproc: only sizes up to MAXVA, as Growproc; exec hands a new table on to the process it runs in by an exit of the old space, so that spaces change their index.
- Spaces.Processes.Spawn: the only allocation is the root table; the trapframe page is not modelled.
- Spaces.Processes.Fork: the number of free pages that rules out a failure counts the pages of the model, so the trapframe and the tables of the trampoline come on top; it is enough, not the least. The same holds of Growproc's and Copyproc's.
- Vm.Machine.Mappages: its panics on an empty range and on a mapped page are preconditions, as are those of uvmunmap, uvmcopy, kfree and walk. Spaces proves that its calls meet them.
- Umalloc.Heap.Malloc: after a call that has overclaimed nothing is promised, because the next header may lie anywhere.
- Umalloc.Heap.Sbrk: the break stays aligned to 16 bytes; a program that calls sbrk itself may move it, but only so.
- Umalloc.Heap.Free: takes only pointers that malloc returned and nobody has freed; anything else is undefined in the source.
- FatFile.Volume.PWrite: the parent directory has a cluster, as has PRead's, Truncate's, Unlink's and Mknod's; the position in it and the bytes of the entry other than start cluster and size are parameters, so the clock is too.
- FatFile.Volume.NextFree: the table has a free entry behind the data clusters, at which the scan stops. A table without any free entry makes the scan run off its end.
- FatFile.Volume.Create: after the outcome Stray the table may have no free entry left, and no further call is modelled.
- FatFile.Volume.WriteDirEntry: reading directories back (fat_file_read_children), names, and the tree of directories are not modelled.
- Fs.Volume.constructor: no inode is in use; the root directory and the programs that mkfs writes are not there.
- Fs.Volume.Bmap: its panic on an index from MAXFILE on is a precondition, and bfree's on a free block; writei, readi and itrunc are proved to meet them.
- FileLog.LoggedVolume.FileWrite: one process uses the log, every inode is flushed before it, and the log_writes of a transaction come together before its end_op. How the bytes of a home block lie in its words is any encoding.
- Log.Log.Commit: the pinned contents are a map of the log; that the buffer cache keeps them is proved in Pins, over bio.c, and the two are not one class.
- Bio.Cache.Bread: a process that need not wait for the sleep-lock; waiting is in SleepWakeup.

The rest:

- Disk and device errors in both file systems, and failed copies to and from user memory in the calls that make them, except wait's; copyout, copyin and copyinstr themselves are in UserMem with their failures.
- Contents of the bitmap blocks as packed bits, and the on-disk inode fields other than addrs and size.
- ialloc, iget, iput, directories and path lookup of fs.c; pipes and devices; exec, but for what it does to address spaces, which are steps of a run in Spaces: which of them an exec takes, and what it loads, is not modelled.
- The kernel's own page table, into which copyout's and copyin's kernel addresses point; kernel stacks.
- yield and timer preemption: a process leaves its CPU only by sleeping or exiting. Sleep channels other than semaphores, sleep-locks and wait.
- SleepWakeup and ExitWait both model sleep and wakeup of proc.c, once for any number of semaphores and once for wait_lock with p->lock; they share no definitions.
- Fair scheduling and liveness, beyond the absence of deadlock (TokenRing.Progress, SemCalls.NoDeadlock, Outcomes.NoDeadlock, Virtio.RequestGoesOn).
- The exit status that exit leaves for wait, and the copy of registers and open files by fork.
- Reordering of memory accesses: steps are sequentially consistent, so the fences of virtio_disk.c are not needed in the model.
- usertrap's test of the mark on the way to user space: after a mark the exit is a step that may come, so that the panic of initproc's exit when somebody has killed it is not modelled.
- Running out of semaphores in pingpong and tateti, which then end before the first fork.
- Wrap-around of pids.
- More than one device in the buffer cache, and block numbers of 2^31 and more in virtio requests.
- FAT12 and FAT16 tables, long names, the timestamps, and the activity log of lab 3.
- The data-processing scripts of lab00 and the shell of lab01.
