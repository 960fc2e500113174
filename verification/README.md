# xv6 in Dafny: models and proofs

A Dafny 4.11 project that models the hard parts of xv6 for RISC-V, a small Unix kernel with a few user programs, and
proves what they are for. Each part follows its C file: data that the C code updates in place is updated in place,
loops are loops with invariants, and what several processors or processes do at once is a machine of steps, one per
stretch of code that holds a lock. The statements hold for every input, every run and every interleaving of the model.

| part | files | what is proved |
|---|---|---|
| write-ahead log | `wal*.dfy` | crash atomicity and durability at every block write, recovery that may itself crash, the exact log space rule |
| buffer cache | `bcache*.dfy` | cache and disk as one map, the LRU ring as a permutation, references and pins counted over every run |
| files | `fs*.dfy`, `file.dfy` | the free map against the block maps of all inodes, files as byte sequences, the exact transaction size |
| files across crashes | `crash_files.dfy` | what whole operations keep true of the blocks holds after every crash and recovery, and so the free map |
| inode table | `itable*.dfy` | one slot per inode, agreement with the disk through the window in `iput`, references counted over every run |
| link counts | `links*.dfy` | `nlink` against directory entries, with the exact condition under which it holds; what every name leads to |
| address spaces | `sv39.dfy`, `page_tables.dfy`, `page_bill.dfy`, `vm.dfy`, `uvm*.dfy`, `freewalk.dfy`, `proc_space.dfy`, `machine.dfy`, `fork.dfy` | three-level tables as maps, every page in exactly one place on every success and failure path, and failure exactly for want of a number of pages known beforehand |
| loading programs | `page_bytes.dfy`, `user_memory.dfy`, `exec*.dfy` | `copyout` and `exec` byte by byte: what every address, the stack and the registers hold when a program starts, and exactly when it does start |
| processes | `proc.dfy`, `proc_proof.dfy`, `proc_life.dfy`, `proc_go.dfy` | no lost wakeup, no deadlock, live parents, one CPU per running process, the life of a slot, what `wait` returns |
| user allocator | `umalloc*.dfy` | the circular free list, conservation, the single lap and the single `sbrk` |
| disk driver | `virtio*.dfy` | descriptor conservation, completions across 16-bit wrap-around, no return before the device has served the request |
| pipes | `pipe.dfy` | first in, first out across 32-bit wrap-around |
| grep | `grep.dfy` | the matcher decides a declaratively defined language |
| shell | `shell*.dfy` | the parser accepts exactly a grammar, with any white space, and NULs land only at the ends of words |

Conventions. A `panic` is either a step that cannot be taken, a result `ok == false`, or a branch that is proved
unreachable; the contracts say which. The contents of the world outside (what the disk holds at power-up, whether
user memory can be read, what `sbrk` answers, which program is loaded) are parameters. A ghost map that leads from
each thing back to its one holder stands behind most conservation arguments: from blocks to inode slots, from pages to
their use, from heap units to blocks, from descriptors to requests.

Where the code and what one might expect of it differ, the model follows the code, and the difference is stated:

- `log_write` tests the size of the log before it looks for an entry to reuse, and counts one block less than the log
  has (kernel/log.c:220). New blocks within the budget are safe exactly if the log is larger than LOGSIZE; mkfs makes
  one of exactly LOGSIZE. See `WalBudget.RoomForNewBlock`, `WalBudget.SmallLogPanics`, `WalBudget.FullLogPanicsOnRewrite`.
- `create` and `sys_link` do not check that the directory they write to still has links. The link-count law is kept
  exactly if it has. See `LinksProof.ProvisoExact`, `LinksProof.RemovedDirectory`.
- A failed `copyin` in `writei` leaves its bytes in the cached block without logging it (kernel/fs.c:500-503); the
  contract of `Writei` says which bytes.
- `piperead` takes a byte out of the pipe before `copyout` can fail; the contract speaks of bytes removed.
- `sbrk` takes an `int`, so a request of 2 GB or more asks for something else than it then uses, and from 2 GB to
  4 GB even gives memory back. See `Umalloc.SbrkExact`, `Umalloc.SbrkOverrun`, `Umalloc.SbrkShrinks`.
- `growproc` adds in 32 bits, so shrinking below 0 changes nothing and succeeds. See `Machines.Machine.Growproc`.
- `exec` takes an image that is still empty after a loadable segment for a failure of `uvmalloc`, which returns the size.
  See `ExecSpec.HeadersOk` and `Exec.LoadSegment`.

## Model

| member | source | states |
|---|---|---|
| `WalProof.KeepsInv` | kernel/log.c:53-235 | every step of the log, a crash and a recovery step included, keeps the invariant: reserved space, distinct logged blocks with one pin each, a clean cache outside the log, a disk whose header describes the log |
| `WalProof.KeepsLogWrite` | kernel/log.c:214-235 | log_write(): a new block gets one entry and one pin, a logged one neither, and an operation's share of the log grows by at most one |
| `WalProof.KeepsCommit` | kernel/log.c:178-203 | every block write of a commit keeps the invariant, whichever comes next |
| `WalProof.KeepsRecover` | kernel/log.c:68-123 | every block write of a recovery keeps the invariant |
| `WalProof.KeepsCrash` | kernel/log.c:53-66 | a crash between any two block writes leaves a disk on which the invariant holds again |
| `WalSpec.Refinement` | kernel/log.c:68-235 | every run of the log, with crashes anywhere, is a run of a disk on which groups of operations take effect at once, and they become durable exactly where the header write of a commit reaches the disk |
| `WalSpec.CommitPointOnly` | kernel/log.c:193-203 | of all steps of the log, only the header write of a commit changes what a recovery would yield, and it makes that what bread() shows, with no operation open |
| `WalSpec.LastCommitStands` | kernel/log.c:193-203 | at every moment of every run, in the middle of a commit or recovery too, the disk stands for what the operations saw at the last commit whose header write reached it: whole groups, and none lost |
| `WalSpec.CommitsSurvive` | kernel/log.c:116-123 | after a crash anywhere and a recovery interrupted any number of times, the home blocks are what the operations saw at the last commit before the crash |
| `WalSpec.CrashSafety` | kernel/log.c:68-123 | a crash anywhere and a recovery interrupted by any number of crashes: when operations run again, the home blocks are what the crashed disk stood for |
| `WalSpec.CommitPoint` | kernel/log.c:99-114 | the header write is the commit: after it, recovery yields what the operations saw |
| `WalSpec.InstallInvisible` | kernel/log.c:68-84 | copying a logged block home changes nothing that recovery would yield, so installing may be repeated |
| `WalSpec.EraseInvisible` | kernel/log.c:193-203 | clearing the header once all blocks are home changes nothing that recovery would yield |
| `WalSpec.RecoverInvisible` | kernel/log.c:116-123 | no step of a recovery changes what a recovery yields: recovery is idempotent |
| `WalSpec.RecoveryDone` | kernel/log.c:116-123 | with an empty log the home blocks are what recovery would yield and what bread() shows |
| `WalBudget.ReservedSpace` | kernel/log.c:126-175 | in every run, logged blocks plus the unused budgets of open operations fit LOGSIZE; committing means none is open; entries are distinct with one pin each |
| `WalBudget.RoomForNewBlock` | kernel/log.c:220-221 | with a log larger than LOGSIZE, a new block of an operation within its budget never meets the panic for a full log |
| `WalBudget.SmallLogPanics` | kernel/log.c:220-221 | with any smaller log, such as the one mkfs makes, there is a run in which it does: the condition is exact |
| `WalBudget.FullLogPanicsOnRewrite` | kernel/log.c:220-234 | even in a larger log, writing a logged block again panics when the log is exactly full, because the size test comes first |
| `WalCode.Log.Bread` | kernel/bio.c:92-103 | a block read through the cache is the block's current contents |
| `WalCode.Log.BeginOp` | kernel/log.c:126-143 | begin_op() goes ahead exactly if no commit is running and a whole further budget fits |
| `WalCode.Log.LogWrite` | kernel/log.c:214-235 | log_write() with its loop: the visible contents change, and it panics exactly if the size test says so |
| `WalCode.Log.WriteLog` | kernel/log.c:178-190 | write_log(): all logged blocks are copied, and neither the visible nor the durable contents change |
| `WalCode.Log.FillHead` | kernel/log.c:103-111 | the header block holds the count and the block numbers |
| `WalCode.Log.WriteHead` | kernel/log.c:102-114 | the header write makes the visible contents durable, and only the committing one does |
| `WalCode.Log.InstallTrans` | kernel/log.c:68-84 | install_trans() in both its uses changes neither the visible nor the durable contents |
| `WalCode.Log.Commit` | kernel/log.c:193-203 | commit(): afterwards the durable contents are the visible ones, and the home blocks hold them |
| `WalCode.Log.EndOp` | kernel/log.c:145-175 | end_op(): the last operation out commits; the others leave the durable contents alone |
| `WalCode.Log.ReadHead` | kernel/log.c:86-97 | read_head() takes over the list that the header on disk describes |
| `WalCode.Log.RecoverFromLog` | kernel/log.c:116-123 | after recovery, home blocks, visible and durable contents agree |
| `FsLayout.SetBit` | kernel/fs.c:75-77 | setting a bit changes that bit of a byte and no other |
| `FsLayout.ClearBit` | kernel/fs.c:98-101 | clearing a bit changes that bit and no other |
| `FsLayout.PutAddr` | kernel/fs.c:395-398 | storing a block address in an indirect block: it reads back, and the other entries stay |
| `FsMap.ConservedMeans` | kernel/fs.c:64-103 | the invariant in plain terms: no two slots hold the same block, each held block has its bit set, and a data block with its bit set is held |
| `FsMap.AllocKeeps` | kernel/fs.c:71-83 | marking a free block keeps set bits equal to metadata, held blocks and the one in hand |
| `FsMap.TruncKeeps` | kernel/fs.c:409-437 | freeing all blocks of an inode keeps the correspondence, blocks beyond the size included |
| `FsMap.TruncBytes` | kernel/fs.c:409-437 | truncating one file leaves the bytes of all others |
| `FsMap.AllocEntryGrows` | kernel/fs.c:391-400 | a new indirect entry keeps the correspondence and all bytes of all files |
| `Fs.FileSystem.Claim` | kernel/fs.c:75-82 | marking and zeroing a free block keeps the correspondence, and the blocks taken in a transaction are the lowest of those that were free |
| `Fs.FileSystem.Balloc` | kernel/fs.c:64-86 | balloc() takes the lowest free block, marks and zeroes it, and fails exactly if there is none |
| `Fs.FileSystem.Bfree` | kernel/fs.c:89-103 | bfree() clears the bit, and panics exactly if it is clear |
| `Fs.FileSystem.Iupdate` | kernel/fs.c:221-237 | iupdate() writes the inode, and no other |
| `Fs.FileSystem.OnDisk` | kernel/fs.c:221-237 | with every inode written back, the free map corresponds to the inodes on disk; Itrunc, Ifree, Writei and FileWrite keep them written back |
| `Fs.FileSystem.Bmap` | kernel/fs.c:377-405 | bmap(): the block's address, allocating exactly what is missing of it and the indirect block, changing no byte, failing only if that many blocks are not free |
| `Fs.FileSystem.Itrunc` | kernel/fs.c:409-437 | itrunc() frees every block of the inode, no other, never panics on a free one, and leaves free inodes empty on disk, as ialloc() needs them |
| `Fs.FileSystem.TruncDirect` | kernel/fs.c:416-421 | the loop over direct blocks frees exactly those |
| `Fs.FileSystem.TruncIndirect` | kernel/fs.c:423-432 | the loop over the indirect block frees its entries and the block itself |
| `Fs.FileSystem.ReadChunk` | kernel/fs.c:467-469 | one turn of readi(): a chunk of a block is that chunk of the file |
| `Fs.FileSystem.Readi` | kernel/fs.c:455-477 | readi() returns the file's bytes in the range clipped to its size, stops at a copyout fault, and with no holes below the size allocates nothing |
| `Fs.FileSystem.WriteChunk` | kernel/fs.c:497-506 | one turn of writei(): the bytes of one block are in place, those of all other files and blocks unchanged |
| `Fs.FileSystem.WriteLoop` | kernel/fs.c:497-506 | writei()'s loop, with the count of the blocks it logs; it runs out of blocks only if fewer are free than it may need |
| `Fs.FileSystem.Writei` | kernel/fs.c:486-517 | writei(): which ranges it refuses, how far it gets when copyin() fails, which bytes change, the new size, that no hole appears, which blocks are logged, that free inodes stay empty, and, for readable data, that balloc() fails exactly if fewer blocks are free than are missing in the range |
| `Fs.NeedsJoin` | kernel/fs.c:486-517 | two writes one after the other allocate together what one write over both would |
| `Fs.FileSystem.FreeNow` | kernel/fs.c:65-86 | the free blocks are those from the start of the transaction without the ones taken since |
| `Fs.WriteSplices` | kernel/fs.c:486-517 | a complete writei() turns the contents into old[..off] + data + old[off+n..] and leaves every other file |
| `Fs.FileSystem.Ialloc` | kernel/fs.c:195-217 | ialloc() takes the lowest free inode, cleared, and fails exactly if there is none |
| `Fs.FileSystem.Ifree` | kernel/fs.c:346-349 | the freeing in iput() returns every block of the inode |
| `Fs.TransactionFits` | kernel/file.c:149-175 | no transaction of filewrite() logs more than 10 blocks, for any offset and any number of free-map blocks |
| `Fs.TookLowest` | kernel/fs.c:64-86 | four blocks taken one after the other are the four lowest free ones |
| `Fs.TransactionReaches` | kernel/file.c:149-175 | the bound is exact: a chunk from inside the last direct block of a file without an indirect block, when the four lowest free blocks have their bits in four free-map blocks, logs 10 |
| `FileLayer.File.Transaction` | kernel/file.c:159-168 | one chunk: at most MAXOPBLOCKS blocks logged; success and exactly that many whenever the disk before the call is in the worst case; success exactly if the blocks missing in the range are free; the contents spliced, other files unchanged, and of this one no byte but the readable ones of the chunk |
| `FullDisk.FullDiskConserved` | kernel/file.c:149-175 | a disk of 32768 blocks on which every block is accounted for, no file has a hole and four blocks are free |
| `FullDisk.FullDiskWorstCase` | kernel/file.c:149-175 | it is in the worst case: the condition for the exact bound can be met |
| `FullDisk.FullChunk` | kernel/file.c:159-168 | one chunk written on that disk succeeds and logs exactly MAXOPBLOCKS blocks |
| `FileLayer.File.FileWrite` | kernel/file.c:149-178 | filewrite(): every chunk fits its transaction; for readable data in range it succeeds exactly if as many blocks are free as are missing in the whole range, and has then spliced all of it in; on any return other files are unchanged, this one differs only in a prefix of the data, and free inodes stay empty on disk |
| `CrashFiles.RecoveryShows` | kernel/log.c:116-123 | when recovery is done, no operation is open and bread() shows what recovery had to produce |
| `CrashFiles.HoldsThroughout` | kernel/log.c:68-235 | any property of the home blocks that holds of the first disk and that whole operations keep is, at every moment of every run, a property of what the disk stands for, and of what bread() shows whenever no operation is open |
| `CrashFiles.CrashKeeps` | kernel/log.c:53-123 | such a property holds of the home blocks after a crash anywhere and a recovery interrupted any number of times |
| `CrashFiles.BytesAddr` | kernel/fs.h:27-39 | the words of a block, as the log sees it, are the addresses of an indirect block, as the file layer sees it |
| `CrashFiles.SameFromMap` | kernel/fs.h:40-50 | the correspondence of free map and inodes does not depend on the blocks before the free map, the log among them |
| `CrashFiles.OperationShows` | kernel/fs.c:221-237 | an operation of the file layer that ends with its inodes written back leaves home blocks whose free map corresponds to the inodes, decoded from the blocks' words |
| `CrashFiles.FilesSurvive` | kernel/log.c:53-123 | if whole operations keep the free map in correspondence with the inodes, it still corresponds, on the home blocks, after every crash and recovery |
| `ITable.Keeps` | kernel/fs.c:195-358 | every step of iget(), idup(), ilock(), iupdate(), iunlock(), iput() and ialloc(), in any interleaving, keeps the invariant |
| `ITable.OneSlotPerInode` | kernel/fs.c:242-274 | at any time at most one slot with references holds a given inode |
| `ITable.AgreesWithDisk` | kernel/fs.c:288-323 | at any time a valid slot whose sleep-lock is free equals the inode on disk, which is allocated |
| `ITable.IputCannotBlock` | kernel/fs.c:337-342 | the sleep-lock that iput() takes while holding itable.lock is free |
| `ITable.IputNeverSleeps` | kernel/fs.c:337-342 | and so in every run |
| `ITable.FreedIsNotSeen` | kernel/fs.c:337-358 | in every interleaving: once iput() has erased an inode, no thread has a usable copy of it that was not read from disk since |
| `ITable.ReuseIsFresh` | kernel/fs.c:337-358 | and that does happen: ialloc() may reuse the number while iput() has dropped itable.lock, and the new user shares the slot and reads the new inode |
| `ITableRefs.ReferencesCounted` | kernel/fs.c:242-284 | in every run, a thread holds as many references to an inode as iget() and idup() have given it and iput() has not taken back |
| `ITableRefs.FreesUnlinked` | kernel/fs.c:337-358 | in every run, iput() erases only an inode that has no links on disk and is not free, and erases that one |
| `ITableCode.Table.Iget` | kernel/fs.c:242-274 | iget(): the slot of the inode with one reference more, or else the first slot without references, which then has exactly this one and is not valid; no other slot changes; it panics exactly if there is neither |
| `ITableCode.Table.Ilock` | kernel/fs.c:288-312 | ilock(): the slot locked and its copy loaded from disk if it was not valid, no other slot changed; panics exactly on type 0 |
| `ITableCode.Table.FreeInode` | kernel/fs.c:337-352 | the window of iput(): the inode is free on disk, and the slot invalid, before itable.lock is taken again |
| `ITableCode.Table.Iput` | kernel/fs.c:332-358 | iput() frees the inode exactly on the last reference to one without links |
| `Links.Find` | kernel/fs.c:529-552 | dirlookup() finds the first used entry with the name |
| `Links.WithEntry` | kernel/fs.c:556-583 | dirlink() fills the first free entry or appends, and changes no other |
| `LinksProof.CreateLaw` | kernel/sysfile.c:241-284 | create() keeps every nlink equal to the number of entries |
| `LinksProof.UnlinkLaw` | kernel/sysfile.c:184-239 | the first half of sys_unlink() keeps it, a subdirectory's ".." included |
| `LinksProof.LinkLaw` | kernel/sysfile.c:142-151 | sys_link()'s new entry keeps it |
| `LinksProof.DropKeeps` | kernel/sysfile.c:119-166 | raising a count, lowering it (in sys_unlink() or when sys_link() gives up) and reclaiming an inode keep the invariant |
| `LinksProof.Unlinkable` | kernel/sysfile.c:200-213 | an entry sys_unlink() finds names an inode with a link: the panic for nlink < 1 is unreachable |
| `LinksProof.Keeps` | kernel/sysfile.c:119-284 | every step in any interleaving keeps counts, directory shape and the tree of ".." entries |
| `LinksProof.LinkCounts` | kernel/sysfile.c:119-284 | after any run, with no link or unlink half done, each nlink is the number of non-"." entries naming the inode in directories with links |
| `LinksProof.UnusedUnnamed` | kernel/sysfile.c:119-284 | no entry names an inode that is not in use |
| `LinksProof.ProvisoExact` | kernel/sysfile.c:241-284 | adding an entry keeps the law if and only if the directory still has links, which the code does not check |
| `LinksProof.RemovedDirectory` | kernel/sysfile.c:241-284 | a run of mkdir and rmdir after which create() in the removed directory breaks the law |
| `LinksNames.Added` | kernel/fs.c:556-585 | dirlink(): the new name leads to the new inode and every other name to where it did |
| `LinksNames.Removed` | kernel/sysfile.c:216-224 | erasing an entry: its name leads nowhere and every other name to where it did |
| `LinksNames.NamesAfter` | kernel/sysfile.c:119-284 | after every step of create(), link() and unlink(), what each name of each directory leads to, `.` and `..` of a new one included, and the kind of each inode |
| `LinksNames.NamesUnique` | kernel/fs.c:556-567 | in every run, no directory has a name twice |
| `LinksCode.InodeTable.Dirlookup` | kernel/fs.c:529-552 | dirlookup()'s loop |
| `LinksCode.InodeTable.Dirlink` | kernel/fs.c:556-583 | dirlink() with both loops: it fails exactly if the name is there |
| `LinksCode.InodeTable.Isdirempty` | kernel/sysfile.c:169-182 | isdirempty()'s loop finds exactly the directories with nothing beyond the two dots |
| `LinksCode.InodeTable.Create` | kernel/sysfile.c:241-284 | create(): the existing inode, none, or the new one with all counts and entries in place |
| `LinksCode.InodeTable.SysLink` | kernel/sysfile.c:119-166 | sys_link(): the new link, or by its roll back no change at all, and when which |
| `LinksCode.InodeTable.SysUnlink` | kernel/sysfile.c:184-239 | sys_unlink(): when it refuses, and what it changes when it does not |
| `BCache.Keeps` | kernel/bio.c:58-151 | every step of bget(), bread(), bwrite(), brelse(), bpin() and bunpin() in any interleaving keeps the invariant |
| `BCache.StepView` | kernel/bio.c:58-151 | of all steps only a change made under a buffer's lock changes what a block reads as; recycling changes nothing |
| `BCache.OneMap` | kernel/bio.c:58-151 | in every run cache and disk are one map: a block reads as what was last stored in it |
| `BCache.ReadsView` | kernel/bio.c:92-103 | whoever holds a valid locked buffer has the current contents |
| `BCache.OneBufferPerBlock` | kernel/bio.c:62-88 | no block of a device other than 0 is in two buffers |
| `BCache.RecycledIsClean` | kernel/bio.c:76-88 | a buffer that is recycled holds nothing that is not on disk, so a logged, uninstalled block is never lost |
| `BCacheRefs.ReferencesCounted` | kernel/bio.c:58-151 | in every run, a thread has a block's buffer as often as bget() gave it and brelse() has not taken it back, and the buffer has the pins that bpin() gave it and bunpin() has not taken back |
| `BCacheCode.OneRing` | kernel/bio.c:36-53 | following next from the head meets every buffer exactly once and then the head |
| `BCacheCode.SpliceOk` | kernel/bio.c:126-134 | brelse()'s splice keeps the ring and puts the buffer first, the others in their order |
| `BCacheCode.Cache.constructor` | kernel/bio.c:36-53 | binit() builds a ring of all buffers |
| `BCacheCode.Cache.FindCached` | kernel/bio.c:65-73 | bget()'s first loop finds the block's buffer if there is one |
| `BCacheCode.Cache.FindUnused` | kernel/bio.c:75-88 | bget()'s second loop finds the least recently used buffer without references |
| `BCacheCode.Cache.Bget` | kernel/bio.c:58-89 | bget(): the block's buffer with one reference more, or else the least recently used one without references or pins, now this block's and not valid; no other buffer changes; panics exactly if there is neither |
| `BCacheCode.Cache.Bread` | kernel/bio.c:92-103 | bread() returns the block's current contents, locked, and panics exactly if the block is not cached and every buffer is in use |
| `BCacheCode.Cache.Bwrite` | kernel/bio.c:106-112 | bwrite() puts the buffer on disk and changes no block's contents as seen |
| `BCacheCode.Cache.ToFront` | kernel/bio.c:126-134 | the six assignments of the splice |
| `BCacheCode.Cache.Brelse` | kernel/bio.c:116-137 | brelse(): lock and reference dropped; a buffer that is then unused comes first in the ring, and the others stay in their order |
| `ProcProof.KeepsInv` | kernel/proc.c:272-573 | every step of fork(), exit(), wait(), sleep(), wakeup(), kill() and the scheduler, in any interleaving, keeps the invariant of states, locks, CPUs, parents and wakeups |
| `ProcProof.NoLostWakeup` | kernel/proc.c:339-434 | whenever wait_lock is free, no process asleep in wait() has a ZOMBIE child |
| `ProcProof.ParentsAlive` | kernel/proc.c:323-381 | no parent pointer refers to an UNUSED or ZOMBIE slot, and every started process but init has a parent |
| `ProcProof.RunningOnOneCpu` | kernel/proc.c:437-470 | a RUNNING process is on exactly one CPU, and no process on two |
| `ProcProof.SchedChecksHold` | kernel/proc.c:474-492 | sched()'s own checks hold whenever it is called |
| `ProcProof.FreedSlotIsIdle` | kernel/proc.c:104-169 | a slot that is freed or taken is on no CPU |
| `ProcLife.LifeCycle` | kernel/proc.c:271-605 | when the state of a slot changes, and to what, at every step: taken and started by fork(), scheduled, preempted, put to sleep, woken by kill() or a wakeup() on its channel, ended by exit(), freed by its parent's wait(), and otherwise not |
| `ProcLife.Family` | kernel/proc.c:323-336 | who a slot's parent is and whether it is killed, after every step: fork() sets the parent, the parent's exit hands it to init, freeing clears both, kill() marks, and nothing else does |
| `ProcLife.RunScan` | kernel/proc.c:392-417 | in every run, havekids is set exactly if one of the slots wait() has looked at is a child; no slot becomes or ceases to be one while it looks |
| `ProcLife.WaitDecides` | kernel/proc.c:419-427 | in every run, wait() that found no exited child returns -1 if and only if the process has no child or is killed, and otherwise goes to sleep with a child that has not exited |
| `ProcLife.SwitchingKeepsPoint` | kernel/proc.c:470-545 | being preempted, put to sleep, woken and switched in again leaves a process where it was in its own code; only its own steps move it |
| `ProcLife.OwnStepsAdvance` | kernel/proc.c:271-440 | fork(), exit() and wait() go from point to point in the order of their code |
| `ProcGo.GoesOn` | kernel/proc.c:271-605 | a process on a CPU can take its next step exactly if it does not need a lock that somebody has |
| `ProcGo.NoDeadlock` | kernel/proc.c:23-27 | in every run, while a CPU is not idle some CPU can go on: the lock order wait_lock before p->lock excludes deadlock |
| `ProcGo.CanDispatch` | kernel/proc.c:438-465 | an idle CPU can take up any RUNNABLE process whose lock is free |
| `Sv39.PxIsIndex` | kernel/riscv.h:357-360 | the shift-and-mask index is the digit of the page number |
| `Sv39.PxInjective` | kernel/riscv.h:357-366 | three indices determine the page below MAXVA |
| `Sv39.PteRoundTrip` | kernel/riscv.h:348-353 | PA2PTE, PTE2PA and PTE_FLAGS round-trip |
| `PageTables.AddTable` | kernel/vm.c:92-96 | linking a zeroed page as a table changes no mapping |
| `PageTables.LinkTable` | kernel/vm.c:92-96 | and keeps every page in its one place |
| `PageTables.MapLeaf` | kernel/vm.c:153-156 | installing a PTE keeps every page in one place and changes that mapping only |
| `PageTables.UnmapLeaf` | kernel/vm.c:176-185 | removing a PTE likewise |
| `Vm.Kernel.Freerange` | kernel/kalloc.c:33-40 | freerange() frees each page of the range once |
| `Vm.Kernel.Kalloc` | kernel/kalloc.c:68-82 | kalloc() takes the first free page, and fails exactly if there is none |
| `Vm.Kernel.Kfree` | kernel/kalloc.c:46-63 | kfree() puts a page that is in use at the head of the list |
| `Vm.Kernel.GrowTable` | kernel/vm.c:92-96 | one missing table is made from one free page, or nothing changes for want of a page |
| `Vm.Kernel.Walk` | kernel/vm.c:80-100 | walk() finds the last-level table; with alloc it makes the missing ones, each from one free page, changes no mapping, and fails only when memory is out |
| `Vm.Kernel.MapPage` | kernel/vm.c:149-153 | one turn of mappages(): the page mapped, a panic exactly if one is, and failure only if fewer pages are free than tables are missing on the page's path |
| `Vm.Kernel.MapRange` | kernel/vm.c:146-158 | the loop of mappages(): as many free pages go as tables are missing on the paths, and it fails only if there are fewer |
| `Vm.Kernel.Mappages` | kernel/vm.c:137-159 | mappages() adds exactly the pages of [va, va+size), up to where memory ran out, which is only where fewer pages are free than tables are missing, and panics exactly on a page that is mapped |
| `Vm.Kernel.Uvmunmap` | kernel/vm.c:165-187 | uvmunmap() removes exactly its range, frees exactly those pages, and panics exactly if one is not mapped |
| `Vm.Kernel.LookUp` | kernel/vm.c:80-100 | walk() without alloc |
| `PageBill.Paid` | kernel/vm.c:80-100 | the free pages that are gone are the pages mapped and the tables that were missing on their paths |
| `PageBill.TooMuch` | kernel/vm.c:220-243 | who runs out after some of the pages had too few for all of them from the start |
| `PageBill.CostJoin` | kernel/vm.c:220-243 | two growths one after the other cost what one growth over both costs, so whether the second will fail can be told before the first |
| `Uvm.RoomBelow` | kernel/vm.c:220-243 | no address space can grow into the trapframe page, since pages run out first |
| `Uvm.PlacePage` | kernel/vm.c:236-241 | a page in hand is mapped, or freed again when a table cannot be made, which happens only for want of pages |
| `Uvm.RollBack` | kernel/vm.c:232-240 | the roll back of uvmalloc() unmaps and frees exactly the pages added so far |
| `Uvm.Uvmalloc` | kernel/vm.c:220-243 | uvmalloc(): zeroed user pages up to the new size, or after the roll back nothing but tables; it fails exactly if fewer pages are free than the new pages and the tables missing on their paths; never a remap panic |
| `Uvm.Uvmdealloc` | kernel/vm.c:250-261 | uvmdealloc() frees exactly the pages above the new size |
| `UvmCopy.Uvmcopy` | kernel/vm.c:300-328 | uvmcopy(): the child has a copy of every page with its flags, or after the roll back is as empty as before; it fails exactly if fewer pages are free than the copies and the missing tables need; its panics are unreachable |
| `FreeWalk.Freewalk` | kernel/vm.c:266-282 | freewalk() frees every table of the tree once and nothing else; its panic is unreachable |
| `FreeWalk.Uvmfree` | kernel/vm.c:286-291 | uvmfree() returns all tables and user pages of the address space and touches nothing else |
| `ProcSpace.Uvmcreate` | kernel/vm.c:191-200 | uvmcreate(): an empty address space from one free page, or no change |
| `ProcSpace.ProcPagetable` | kernel/proc.c:171-200 | proc_pagetable(): trapframe and trampoline and nothing else, or no change, exactly if fewer than 3 pages are free; its second mappages() cannot fail, so its second roll back is never taken |
| `ProcSpace.ProcFreepagetable` | kernel/proc.c:204-210 | proc_freepagetable() returns the whole address space without a panic |
| `ProcSpace.BuiltReleased` | kernel/exec.c:118-128 | releasing a space that was only just built puts every page back |
| `Machines.FoundOnce` | kernel/kalloc.c:21-24 | given the invariant, each page is found at exactly one place |
| `Machines.Machine.ExactlyOnePlace` | kernel/kalloc.c:21-24 | every page of the allocator is on the free list, a table, a mapped user page or a trapframe, of one process, and only once |
| `Machines.Freeproc` | kernel/proc.c:150-168 | freeproc() frees a process's trapframe, tables and pages, also of one only half made |
| `Machines.Machine.Allocproc` | kernel/proc.c:104-145 | allocproc(): a process with an empty image, or no change, exactly if fewer than 4 pages are free |
| `Machines.Machine.Growproc` | kernel/proc.c:252-268 | growproc(): sz + n, or sz itself if that would be negative, by 32-bit arithmetic; the pages from the old size to the new added, or those from the new to the old freed; it fails exactly if n > 0 and fewer pages are free than the new pages and tables need, and then no page is lost |
| `Fork.Reap` | kernel/proc.c:150-168 | wait()'s freeing of a process keeps every other page in place |
| `Fork.ForkMemory` | kernel/proc.c:272-303 | fork(): a child with its own copy of memory and registers, 0 for its result; it fails exactly if fewer pages are free than 4 and those of the copy with its tables, and then nothing changes |
| `PageBytes.PutBytes` | kernel/vm.c:359 | memmove() to a page kept as words: those bytes of it change and no others |
| `UserMemory.Walkaddr` | kernel/vm.c:103-121 | walkaddr() yields the page exactly if user code may see it |
| `UserMemory.TouchableIsOwn` | kernel/vm.c:103-121 | what user code may touch in a process's address space is below its size and memory of its own |
| `UserMemory.StoreAt` | kernel/vm.c:359 | writing one page of an address space changes what no other page of it holds |
| `UserMemory.StorePokes` | kernel/vm.c:359 | writing bytes to one page changes those addresses of user memory and no others |
| `UserMemory.Copyout` | kernel/vm.c:346-366 | copyout() across pages: all of the bytes at their addresses and nothing else changed, or a page in the range is not for user code and exactly what precedes it is written |
| `Exec.Loadseg` | kernel/exec.c:135-154 | loadseg(): the segment's addresses hold the bytes of the file, the last page in part, no other address changes, the pages all exist, and it fails exactly if the file is short |
| `Exec.Uvmclear` | kernel/vm.c:332-341 | uvmclear() removes the user bit of one page and leaves all contents alone |
| `ExecSpec.SizeCovers` | kernel/exec.c:52-54 | the image covers every segment, and ends where the one that reaches farthest does |
| `ExecSpec.SettledNext` | kernel/exec.c:52-73 | whether the next growth of the image will find memory can be told from the number of pages free before exec() and the size of the image then |
| `ExecSpec.StackFalls` | kernel/exec.c:79-89 | the stack pointer only falls, so one string that does not fit is enough for all of them not to |
| `Exec.Enlarge` | kernel/exec.c:52-54 | growing the half-built image keeps what its pages hold and adds zeroed ones; if that fails, which it does exactly if the image stays empty or memory is short, the image still maps exactly its old size |
| `Exec.LoadSegment` | kernel/exec.c:42-59 | one program header: its checks, the growth and the loading, with every address as the headers so far want it and the image consistent whatever fails; it succeeds exactly if the header is in order, the file long enough, the image not empty and memory enough |
| `Exec.LoadProgram` | kernel/exec.c:42-59 | after all headers, every address holds the byte of the file that the last segment covering it puts there, and zero where none does; this succeeds exactly if all headers are in order and memory is enough for the final size |
| `Exec.NotAll` | kernel/exec.c:42-59 | one header that is refused, or for which memory is short, is enough for the whole program to be refused |
| `Exec.MakeStack` | kernel/exec.c:67-74 | the guard page and the stack lie directly above the program, which is untouched; fails exactly for want of memory |
| `Exec.AllAbove` | kernel/exec.c:79-89 | the strings lie between the stack pointer and the top, none below the next |
| `Exec.PushArgs` | kernel/exec.c:75-98 | each string with its NUL is where ustack says, apart, aligned, below the one before, and at sp the array of their addresses ends in 0; copyout() cannot fail and changes nothing below the stack page; it fails exactly if there are more than MAXARG strings or they and the array do not fit the page |
| `Exec.BuildImage` | kernel/exec.c:38-98 | exec() up to its commit: a complete image beside the old one, every byte of program and stack and the guard page included, exactly if headers, memory and arguments allow it, and otherwise everything as it was |
| `Exec.Commit` | kernel/exec.c:103-117 | the commit: the old image freed, a1 and sp at the array, epc at the entry, every other register and every other trapframe as it was |
| `Exec.ExecProgram` | kernel/exec.c:38-128 | exec(): argc returned, the image replaced, program, stack and registers ready in the new one and the old one freed, exactly if the file has an ELF header, its program headers are in order, memory is enough for a second image and the arguments fit a page; otherwise -1 and no change at all |
| `UmallocList.OneCircle` | user/umalloc.c:21-44 | the free list is one circle in address order: from base each block is reached after as many steps as there are lower ones |
| `UmallocList.InsertLinked` | user/umalloc.c:30-44 | putting a block between its neighbours keeps the circle |
| `UmallocList.UnlinkLinked` | user/umalloc.c:33-42 | taking a block out keeps the circle |
| `UmallocList.Conserved` | user/umalloc.c:24-90 | free units plus live units are the units obtained |
| `Umalloc.SbrkExact` | user/umalloc.c:54 | sbrk() is asked for what is then handed out if and only if the request is below 2 GB, as sbrk() takes an int |
| `Umalloc.SbrkOverrun` | user/umalloc.c:54-58 | from 2 GB on, and only then, the block that morecore() puts on the list is longer than what sbrk() added |
| `Umalloc.SbrkShrinks` | user/umalloc.c:54 | from 2 GB to 4 GB sbrk() adds nothing and, if the process is that large, takes away what the request lacks to 4 GB |
| `Umalloc.SbrkTruncated` | user/umalloc.c:54 | malloc(0xffffffff) asks sbrk() for 16 bytes |
| `Umalloc.Heap.Accounted` | user/umalloc.c:24-90 | free plus live units are all units; live blocks are disjoint; no two free blocks touch |
| `Umalloc.Heap.FindSlot` | user/umalloc.c:30-32 | free()'s search finds the place within one lap |
| `Umalloc.Heap.Free` | user/umalloc.c:24-44 | free(): the block is no longer live, its units are free, joined on both sides where they touch, and the list is as it must be |
| `Umalloc.Heap.Morecore` | user/umalloc.c:46-61 | morecore(): new units on the list, in a block that is large enough, or no change; or, exactly from 2 GB on, a block longer than what sbrk() added, with the units that sbrk() took away gone from under the blocks that have them |
| `Umalloc.Heap.Take` | user/umalloc.c:75-84 | a fitting block is unlinked, a larger one gives its end |
| `Umalloc.Heap.Malloc` | user/umalloc.c:63-90 | malloc() of any uint: a new live block, apart from all others, that holds the header and the bytes asked for with less than a unit to spare; sbrk() asked once at most and only if no free block fits; failure only if sbrk() fails; all this exactly unless sbrk() had to grant 2 GB or more, and then which units are left |
| `VirtioProof.Alloc3Exact` | kernel/virtio_disk.c:189-201 | alloc3_desc() succeeds exactly if three descriptors are free, with three different ones |
| `VirtioProof.RingPush` | kernel/virtio_disk.c:259-264 | an entry written at the 16-bit index is the next in the ring, across wrap-around |
| `VirtioProof.RingPop` | kernel/virtio_disk.c:300-311 | the entry read is the oldest, across wrap-around |
| `VirtioProof.RingEmpty` | kernel/virtio_disk.c:300 | the indices differ exactly if the ring holds something |
| `VirtioProof.Keeps` | kernel/virtio_disk.c:203-315 | every step of driver, handler and device keeps the invariant |
| `VirtioProof.Conserved` | kernel/virtio_disk.c:144-275 | at any time free descriptors plus three per request are NUM, and the chains are disjoint and end |
| `VirtioProof.CompletesItsOwn` | kernel/virtio_disk.c:300-311 | each completion clears the buffer of its own request, with status 0 |
| `VirtioProof.FinishSafe` | kernel/virtio_disk.c:266-275 | the descriptors freed at the end are in use, so free_desc() does not panic |
| `VirtioProof.BusyUntilSeen` | kernel/virtio_disk.c:266-269 | a buffer stops being busy in no other way |
| `VirtioServed.NewUsed` | kernel/virtio_disk.c:282-313 | a head gets into the used ring only by the device's completing it |
| `VirtioServed.ServedBeforeDone` | kernel/virtio_disk.c:203-280 | in every run, before virtio_disk_rw() goes on, and since it submitted the request, the device has taken the head of its chain, has returned it, and the handler has seen it, in this order |
| `VirtioCode.Disk.AllocDesc` | kernel/virtio_disk.c:144-154 | alloc_desc()'s loop |
| `VirtioCode.Disk.Alloc3Desc` | kernel/virtio_disk.c:189-201 | alloc3_desc(): all or nothing |
| `VirtioCode.Disk.FreeChain` | kernel/virtio_disk.c:173-184 | free_chain() frees the three descriptors of a chain and stops |
| `VirtioCode.Driver.Submit` | kernel/virtio_disk.c:214-264 | the code of virtio_disk_rw() up to the notification is the Submit step: the buffer is busy and the head of its chain queued; it sleeps instead exactly if fewer than 3 descriptors are free |
| `VirtioCode.Driver.Finish` | kernel/virtio_disk.c:271-272 | its end is the machine's Finish step |
| `VirtioCode.Driver.Intr` | kernel/virtio_disk.c:300-313 | virtio_disk_intr()'s loop is a sequence of Interrupt steps that empties the used ring and never panics |
| `Pipes.FullAndEmpty` | kernel/pipe.c:88 | the tests for full and empty are right wherever the 32-bit counters are |
| `Pipes.StoreAppends` | kernel/pipe.c:95 | a byte stored becomes the last |
| `Pipes.FetchTakes` | kernel/pipe.c:123 | a byte taken was the first |
| `Pipes.FirstInFirstOut` | kernel/pipe.c:76-130 | over any interleaving, what has been removed is, in order, a prefix of what was stored, and nwrite-nread modulo 2^32 is within 0..PIPESIZE |
| `Pipes.Pipe.Pipewrite` | kernel/pipe.c:76-103 | one stretch of pipewrite() under the lock: how many bytes are stored, exactly as far as room and user memory go; told to stop exactly if the read end is closed or the process killed with bytes left; asleep exactly if the pipe is full with bytes left |
| `Pipes.Pipe.WholeWrite` | kernel/pipe.c:76-103 | the whole of pipewrite(), whatever others do while it sleeps: its bytes are stored once each and in order, and it returns the number of bytes that user memory has, or -1 only when closed or killed with bytes left |
| `Pipes.Pipe.Piperead` | kernel/pipe.c:105-130 | one stretch of piperead(): it sleeps, or stops if killed, exactly on an empty pipe that can still be written; otherwise how many bytes it takes and returns, the byte lost to a failed copyout() included |
| `Pipes.Pipe.WholeRead` | kernel/pipe.c:105-130 | the whole of piperead(): what it gets is the next bytes out of the pipe, and it returns 0 for the end only if the write end is closed |
| `Pipes.Pipe.Pipeclose` | kernel/pipe.c:58-74 | pipeclose(): the last close frees the pipe |
| `Grep.Match` | user/grep.c:70-79 | match() finds exactly if a substring, or for '^' a prefix, is in the language of the pattern |
| `Grep.MatchHere` | user/grep.c:82-93 | matchhere(), '*' before '$' and '$' only at the end, against the same declarative language |
| `Grep.MatchStar` | user/grep.c:96-104 | matchstar() tries every length |
| `Grep.FirstItem` | user/grep.c:82-93 | the language is built item by item |
| `Grep.Unfirst` | user/grep.c:82-93 | and taken apart again |
| `Shell.GetToken` | user/sh.c:265-308 | gettoken(): where the token begins and ends, and that a word is as long as it can be |
| `Shell.ParseCmd` | user/sh.c:327-342 | every word of a parsed command is a word of the input, fewer than MAXARGS to a command |
| `ShellLex.Lexed` | user/sh.c:261-308 | gettoken() finds the tokens of a text whatever white space, of the five kinds, is before, between and after them |
| `ShellLex.Unlexed` | user/sh.c:261-308 | every text is that of its tokens with some white space between them |
| `ShellGrammar.ParsesGrammar` | user/sh.c:327-446 | every text of a grammar for command lines, with any white space, is parsed into what the grammar says it means (pipes and lists to the right, & to the left, redirections in order), and panics exactly if some simple command has more than 9 words |
| `ShellGrammar.OnlyGrammar` | user/sh.c:327-446 | every text that is parsed is a text of that grammar, with that meaning |
| `ShellGrammar.RoundTrip` | user/sh.c:327-446 | parsecmd() inverts the printing of every command tree, with any white space and parentheses only where needed, exactly if no simple command has more than 9 words |
| `ShellGrammar.ReadLine` | user/sh.c:344-359 | parseline() on the tokens of a line, in any context that can end one |
| `ShellGrammar.ReadPipe` | user/sh.c:361-372 | parsepipe() on the tokens of a pipeline |
| `ShellGrammar.ReadBlock` | user/sh.c:399-413 | parseblock() on a line in parentheses with redirections |
| `ShellGrammar.ReadArgs` | user/sh.c:415-446 | parseexec()'s loop on words and redirections, and its panic on the tenth word |
| `ShellGrammar.ReadRedirs` | user/sh.c:374-396 | parseredirs() reads redirections in order |
| `ShellCode.Cursor.Gettoken` | user/sh.c:265-308 | gettoken() with its loops |
| `ShellCode.Cursor.PeekFor` | user/sh.c:310-319 | peek() |
| `ShellCode.Cursor.Parseredirs` | user/sh.c:374-396 | parseredirs()'s loop |
| `ShellCode.Cursor.Parseexec` | user/sh.c:415-446 | parseexec()'s loop |
| `ShellCode.Cursor.Parseblock` | user/sh.c:399-412 | parseblock() |
| `ShellCode.Cursor.Parsepipe` | user/sh.c:361-371 | parsepipe() |
| `ShellCode.Cursor.Parseline` | user/sh.c:344-358 | parseline() |
| `ShellCode.Parsecmd` | user/sh.c:327-342 | parsecmd() on a cursor computes the same command as the grammar's functions |
| `ShellCode.Nulterminate` | user/sh.c:449-493 | nulterminate() writes a NUL at the end of each word and nowhere else |
| `ShellCode.StringsAreTokens` | user/sh.c:449-493 | no NUL lands inside another word: each string is its token |
| `ShellCode.ParseInPlace` | user/sh.c:327-342 | parsing in the buffer: afterwards every argument and file name is a C string equal to its token |

## Left out

- Boot, trap entry, `swtch` and assembly: hardware state; a context switch is one step that hands the lock over.
- Device registers, the console, the UART, the PLIC and `virtio_disk_init`: I/O plumbing.
- Spinlocks and sleep-locks as code, and memory fences: acquiring and releasing are primitive steps.
- Liveness: that sleepers are woken in time, that waiting ends, that allocation succeeds.
- The packing of inodes into disk blocks by `iupdate`: the file layer keeps the inodes on disk as values beside their block numbers; `crash_files.dfy` decodes them from blocks.
- Path resolution (`namex`, `skipelem`, which cuts names to DIRSIZ bytes), open files, `fileread` and the other system calls: they would add easy members.
- Pids, process names, `killed` on a fresh slot, and `kill` of pid 0, which matches unused slots.
- The kernel's own page table, kernel stacks and `uvminit`.
- `copyin` and `copyinstr`: the arguments of `exec` come in as strings.
- Pages held by neither a process nor the free list: pipes, whose buffers are pages too, and kernel stacks are not part of the page accounting.
- The device side of the block protocol beyond returning each request once with status 0.
- Overflow of `nlink`, of pids and of reference counts.
- The shell's execution of commands, grep's reading of lines, and the small user programs.
- Vm.Kernel.Mappages: asks that `perm` has a bit beside V, as that of every caller has; without one the entry would be taken for a table.
- Vm.Kernel.Uvmunmap: clears the entry before it frees the page, where the source does it after; nothing can happen in between.
- Uvm.Uvmalloc: takes it as a fact of the machine that there are fewer pages than there is address space below the trapframe.
- Machines.Machine.Growproc: takes it as a fact that there are at most 32768 pages, as between KERNBASE and PHYSTOP.
- Exec.Commit: sets the registers after it has freed the old image, where the source does it before; nothing can happen in between.
- Exec.ExecProgram: takes the contents of the program file and the fields of its headers as parameters, and does not set the process name.
- BCache.Keeps: holds for callers that write or pin a change before they release the buffer, as the log's callers do.
- BCacheCode.Cache.Bread: describes the call when the sleep-lock is free; waiting for it is the step `Acquire` of the machine.
- ITable.Keeps: holds for callers that call `iupdate` before they unlock.
- LinksProof.Keeps: takes the steps that add an entry to a directory without links out, as `LinksProof.ProvisoExact` shows it must.
- Umalloc.Heap.Malloc: counts addresses in units of one header, trusts the program not to write outside its blocks, and does not go on once memory that `sbrk` did not add is on the list.
- VirtioCode.Driver.Intr: the device adds no entry to the used ring while the loop runs; `VirtioProof.Keeps` covers all interleavings of single steps.
- VirtioCode.Disk.Alloc3Desc: writes the three turns of the loop and its roll back out.
- ShellCode.Cursor.Parseexec: collects words and redirections and builds the command at the end, where the source fills in a node that is already wrapped.
- Pipes.Pipe.Pipewrite: describes one stretch under the lock; `Pipes.Pipe.WholeWrite` puts the stretches together.
