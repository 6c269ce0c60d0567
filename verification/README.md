# xv6 in Dafny

A model of the xv6 RISC-V kernel's hard parts and of a few of its user programs, with proofs. Each module follows one
component of the system; a protocol that several processes run at once is a transition system whose steps are the
sections between lock operations, and code that updates things in place is a class or a method with loops, proved
against a function or against the property itself.

What the modules are about:

- **The crash-safe log.** `LogDisk` has the disk format and the block writes of commit and recovery, one at a time;
  `LogMachine` has the whole log in use by many processes, with crashes between any two steps, and proves that it
  refines an atomic store; `LogLedger` has what every run keeps of the buffers' reference counts, and `LogLimits` shows
  that the two conditions of the refinement, a log that is not overfilled and no use of blocks that the boot's own
  recovery installed, are exact.
- **The buffer cache.** `BufferCache` is the doubly linked ring of buffers over a disk; `LogCache` joins it to the log,
  and counts the buffers that the two need.
- **Files and directories.** `Inode` and `FileSystem` have the bitmap, the block map, reading, writing, truncation and
  the chunking of long writes; `Links` and `Directories` have directory entries and link counts.
- **Processes.** `SleepLock`, `ExitWait` and `Scheduler` have sleep and wakeup, exit and wait, and the hand-over of
  locks across a context switch.
- **Memory.** `PageTable`, `UserMemory` and `FreeWalk` have Sv39 page tables, as in section 4.4 of the RISC-V
  Privileged Architecture manual, `KernelMemory` the routines that update them in place, and `FreeList` the page
  allocator under them.
- **Devices and pipes.** `Virtio` has the disk driver's descriptor ring, as in section 2.6 (Split Virtqueues) of
  virtio 1.1, with the device alongside; `Pipe` has the pipe ring.
- **User programs.** `Heap` is the memory allocator, `Shell` and `ShellParser` the shell's parser, `Matcher` and `Grep`
  the pattern matcher and the line loop of grep.

## Where the code falls short

These claims are false of the code as it stands. For each there is a result that shows it failing and one that says
exactly when it holds, unless one equivalence says both.

- log_write checks the size of the log before it takes the lock (kernel/log.c:218, 223), so three operations can pass
  when there is room for one block. On a log of 2 to LOGSIZE blocks, and mkfs makes one of LOGSIZE, operations within
  their budgets can then log as many blocks as the log has, header included, and commit copies the last one over the
  block after the log, which is a home block: `LogLimits.HomeOverwritten`. The most that can be logged is one block more
  than the log has, but never more than LOGSIZE: `LogLimits.LoggedIff`. Every run is safe from this if and only if the
  log has more than LOGSIZE blocks, or one: `LogLimits.SizeSafeIff`. These count buffers as unlimited; with NBUF of
  them, a commit of LOGSIZE blocks panics before it overwrites anything, as below.
- Recovery unpins blocks that nobody pinned (kernel/log.c:78, reached from kernel/log.c:119), so that their buffers
  have a reference count that is one too low. A later write to such a block, in the same boot, can be evicted from the
  cache before it is copied to the log, and the commit then makes the old contents durable: `LogLimits.LostUpdate`.
  Reading one is enough: its buffer has a count of zero while it is held, can be given to another block, and is then one
  too low for that block, whose write is lost in the same way: `LogLimits.ReadGivesAway`, `LogLimits.LostByReading`, and
  `LogCache.ChangesHands` in the cache itself. Such states are reached: `LogLimits.ShortIsReachable`. On a
  log of any size, a boot that reads and writes given blocks is safe if and only if it can log nothing, or its recovery
  installed none of those it reads and those it writes are too few to overfill the log: `LogLimits.BootSafeIff`.
- The panic for too big a transaction can be reached by operations that keep to their budgets, on a new block exactly
  when the log has at most LOGSIZE blocks, and on a larger log by rewriting a block already logged:
  `LogLimits.NoPanic`, `LogLimits.FullIsReachable`.
- bread panics if and only if as many blocks are in use as there are buffers (`LogCache.NoBufferIff`), and logged blocks,
  blocks left one short by recovery, and blocks that somebody holds are all in use. With c the most blocks that can be
  logged, which is LOGSIZE on a log of LOGSIZE - 1 blocks or more and the size and one on a smaller one, commits find
  their buffers, in every run and with r blocks held, if and only if there are more than 2 * c + r, and recovery if and
  only if there are more than c: `LogCache.BuffersSufficeIff`, `LogCache.RecoverySufficesIff`. There are NBUF, which is
  LOGSIZE: `LogCache.NbufTooFew` has states that panic on the log that mkfs makes, one of them in the commit of a single
  block.
- All buffers start as block 0 of device 0. A block can be in two buffers if and only if it is that one:
  `BufferCache.TwiceIff`.
- `init` may be left asleep with a zombie child, as the kernel's own comment allows: `ExitWait.InitMayMiss` has a run.
  It can only be one that reparent gave to it: `ExitWait.NoZombieWhileAsleep`.
- A killed writer that finds the pipe full returns without waking readers that went to sleep on an empty pipe:
  `Pipe.LostIff`, `Pipe.WakeupCanBeLost`.
- A name created in a directory that has been removed but is still in use breaks the rule that an inode's link count
  is the number of names it has in linked directories, and that is the only way: `Links.FileNameIff`,
  `Links.DirNameIff`, `Links.UnlinkedExists`.
- `writei` reports n bytes even when fewer could be copied from the caller: `FileSystem.Fs.Writei` says how many are
  then written, all n if and only if all could be copied (`FileSystem.Total`); `FileSystem.ShortWrite` is a case.
  `filewrite` then goes on with its next chunk: `FileSystem.ChunksAllIff` says when it still reports all n bytes, and
  `FileSystem.ChunksLand` which of them are in the file; `FileSystem.HoleIsLeft` is a case.
- Nothing stops a page from being freed twice: the free list stays one if and only if the page was not on it
  (`FreeList.Kmem.Kfree`).
- The cache forgets a modified buffer whose last holder lets go of it: what it shows stays right if and only if the
  buffer agrees with the disk then (`BufferCache.Cache.Brelse`, `BufferCache.Cache.Bunpin`).
- grep stops for good at a line of more than 1022 characters or with a zero byte: `Grep.PrintsAllIff`,
  `Grep.LongLineHides`, `Grep.ZeroHides`.
- The allocator asks `sbrk`, which takes a signed 32-bit count, for the right number of bytes if and only if the
  request is for at most 2^31 - 32 bytes, and just then the units it takes itself to have are memory: `Heap.SbrkCount`,
  `Heap.BackedIff`.

## Model

| member | source | states |
|---|---|---|
| LogDisk.PutHeader | kernel/log.c:101-113 | read_head decodes exactly the list that write_head encoded, whatever was in the block before |
| LogDisk.InstallIs | kernel/log.c:68-82 | after copying the first k logged blocks home, those hold their logged copies and every other block is untouched |
| LogDisk.RecoversToIff | kernel/log.c:115-122 | a disk recovers to t, said of its log copies and untouched home blocks, if and only if the recovery loop leaves the home blocks of t; afterwards the header is empty |
| LogDisk.HeaderCommits | kernel/log.c:98-113 | writing the header switches what recovery leads to from the old home blocks to all the logged ones at once |
| LogDisk.RecoveryIsCrashSafe | kernel/log.c:68-122 | a crash after any block write of recovery leaves a disk that recovers to the same home blocks |
| LogDisk.CommitIsCrashSafe | kernel/log.c:177-202 | a crash after any block write of commit recovers to all old blocks before the header write, and to all new ones from it on |
| LogDisk.CrashAtomicity | kernel/log.c:68-202 | for a crash after any write of commit and any number of crashes during recovery, the recovery that completes leaves the home blocks all old or all new |
| LogDisk.Log.ReadHead | kernel/log.c:85-96 | the loop loads the header's block list, a negative count giving none |
| LogDisk.Log.WriteHead | kernel/log.c:101-113 | one block write, which puts the list in the header block |
| LogDisk.Log.WriteLog | kernel/log.c:177-190 | copies every logged block to the log area, with the sequence of disks it goes through |
| LogDisk.Log.InstallTrans | kernel/log.c:68-82 | copies every logged block home, through the given sequence of disks, and unpins each as it gets there |
| LogDisk.AllUnpinned | kernel/log.c:68-82 | when every logged block is pinned once, installing them leaves none pinned |
| LogDisk.Log.RecoverFromLog | kernel/log.c:115-122 | leaves the recovered disk, through exactly the disks that crash safety is proved for, with every block of the header unpinned once |
| LogDisk.Log.Commit | kernel/log.c:192-202 | leaves the home blocks as clients saw them and the log empty, through exactly the disks that crash safety is proved for; blocks pinned once each before are all unpinned |
| LogDisk.Log.LogWrite | kernel/log.c:213-234 | adds and pins the block once, absorbs later writes, keeps the list one that a commit may rely on |
| LogMachine.Simulation | kernel/log.c:125-234 | every step of the concurrent log, crashes and evictions included, keeps its invariant and is a step of an atomic store, whose durable image changes only while no operation is open; as long as no block is logged that the log has no place for and none is read in whose buffer recovery left one short |
| LogMachine.SizedFits | kernel/log.c:213-234 | operations within their budgets never log a block that a log of more than LOGSIZE blocks, or one, has no place for |
| LogMachine.RunSim | kernel/log.c:125-234 | along every such run, and every run with no such read on a log of more than LOGSIZE blocks or one, the machine stands for the store that the run's events give |
| LogMachine.CommittedPrefix | kernel/log.c:125-234 | wherever such a run stops, recovery leaves exactly the writes logged before the last commit point and not wiped by a crash, and every commit point comes with no operation open |
| LogMachine.BeginSim | kernel/log.c:125-141 | begin_op is the opening of an operation in the store, and keeps logged blocks plus the unused budget of all open operations within LOGSIZE |
| LogMachine.EndSim | kernel/log.c:145-174 | end_op is the closing of an operation in the store, and keeps committing set exactly while there is a committer, one alone and with no operation open |
| LogMachine.WriteSim | kernel/log.c:223-233 | the locked part of log_write is a write to the store by an open operation, and keeps logged blocks distinct, each pinned once until it is home |
| LogMachine.HoldSim | kernel/bio.c:92-137 | reading in a block whose buffer is not short, and letting go of it, changes neither what is durable nor what clients read |
| LogMachine.CheckSim | kernel/log.c:218-221 | the size check, made without the lock, changes neither what is durable nor what clients read |
| LogMachine.CopySim | kernel/log.c:177-190 | copying a block to the log changes neither what is durable nor what clients read |
| LogMachine.HeadSim | kernel/log.c:101-113 | the header write is the commit point: everything clients read becomes durable at once, with no operation open |
| LogMachine.InstallSim | kernel/log.c:68-82 | copying a block home and unpinning it changes neither what is durable nor what clients read |
| LogMachine.ClearSim | kernel/log.c:192-202 | emptying the header changes neither |
| LogMachine.CrashSim | kernel/log.c:68-122 | a crash at any step loses what was not durable and closes all operations, no more |
| LogMachine.RecoverOneSim | kernel/log.c:68-82 | one block copied home by recovery changes nothing durable |
| LogMachine.RecoverDoneSim | kernel/log.c:115-122 | the end of recovery changes nothing durable, and clients read what is durable |
| LogMachine.FinishSim | kernel/log.c:145-174 | when end_op clears committing, the durable image and the current one are the same |
| LogMachine.NoLoss | kernel/bio.c:75-87 | as long as no such block is read in, the cache never drops a modified block or gives a held buffer away |
| LogLedger.LedgerStep | kernel/log.c:68-234 | on a log of any size every step, of whatever blocks, keeps the pins of each block at one for each unpin that is due less what its buffer is short of, keeps the list of logged blocks and the header within what can be logged, and within a boot leaves the sum of what buffers are short of as it was |
| LogLedger.LedgerRun | kernel/log.c:68-234 | that account holds in every state of every run, crashes included |
| LogLedger.ReuseLedger | kernel/bio.c:75-87 | a buffer given away while it is held takes what it is short of along to its new block |
| LogLedger.EvictIff | kernel/log.c:76-79 | in every state of every run, a modified block can be evicted before it is home exactly when its buffer is one short and nobody holds it |
| LogLedger.ReuseIff | kernel/bio.c:75-87 | and a held buffer can be given to another block, of the log or not, exactly when it is short of a count for each of its holders, and of one more if its unpin is due |
| LogLedger.NoReuse | kernel/bio.c:75-87 | no buffer is given away as long as nobody holds one that is short |
| LogLimits.SizeSafeIff | kernel/log.c:213-234 | every run of a boot leaves, wherever it stops, a disk that recovers to the committed writes, if and only if the log has more than LOGSIZE blocks, or takes no write |
| LogLimits.HomeOverwritten | kernel/log.c:177-190 | from every idle state, on a log of 2 to LOGSIZE blocks a run of operations within budget that writes that many blocks reaches a commit that copies over the home block after the log |
| LogLimits.Overfill | kernel/log.c:218-232 | two operations past the unlocked check log as many blocks as the log has, without panic |
| LogLimits.OverfillMore | kernel/log.c:218-232 | three of them log one block more, if there are budgets for it |
| LogLimits.LoggedIff | kernel/log.c:213-234 | some run has n blocks logged at a time if and only if n is at most LOGSIZE and at most one more than the log has, or none on a log of one block |
| LogLimits.BootSafeIff | kernel/log.c:68-234 | on a log of any size, a boot that reads and writes only given blocks leaves, wherever it stops, a disk that recovers to the committed writes, if and only if it writes none or the log takes none, or its recovery installed none of those it reads and those it writes are fewer than the blocks of the log or the log has more than LOGSIZE |
| LogLimits.SafeBoot | kernel/log.c:125-234 | one half of that: no run of a boot that reads none of the blocks its recovery installed, and writes too few to overfill the log, ends in a disk that recovers to anything else |
| LogLimits.ReadOnlySafe | kernel/log.c:125-234 | a boot that writes nothing, or whose log takes nothing, loses nothing, whatever it reads |
| LogLimits.LostUpdate | kernel/log.c:76-79 | the other half: a write to a block that recovery installed is logged, evicted, and committed with the old contents |
| LogLimits.ReadGivesAway | kernel/bio.c:58-89 | reading a block that recovery installed can leave the buffer of any other block, held by its reader, one short |
| LogLimits.LostByReading | kernel/log.c:76-79 | so a write to a block that recovery did not touch is logged, evicted, and committed with the old contents, because another block was read |
| LogLimits.ShortIsReachable | kernel/log.c:115-122 | a crash after a commit point and a completed recovery lead to an idle machine in which the buffers of any chosen blocks, as many as can be logged at a time, are one short |
| LogLimits.NoPanic | kernel/log.c:145-155 | end_op never finds a commit in progress, and a process with reserved space passes the size check of a log of more than LOGSIZE blocks |
| LogLimits.FullIsReachable | kernel/log.c:217-220 | operations within budget can fill every log; one of them then still has reserved space exactly when the log has at most LOGSIZE blocks |
| LogCache.NoBufferIff | kernel/bio.c:58-89 | no buffer can be had for a block that is not in use if and only if as many blocks are in use as there are buffers: logged ones, ones left short, and held ones |
| LogCache.ReadBlock | kernel/bio.c:58-103 | bread of a block that is not in use panics exactly then |
| LogCache.BuffersSufficeIff | kernel/param.h:10-11 | with at most r blocks held, every commit of every run, crashes and uses of recovered blocks included, finds buffers for the log block and the home block it reads, if and only if there are more than twice as many as can be logged, and r; on a log of any size that takes blocks, with the disk going on after it |
| LogCache.EnoughBuffers | kernel/param.h:10-11 | the half of that which says how many are enough, for every log and every disk |
| LogCache.RecoverySufficesIff | kernel/log.c:68-82 | every recovery of every run finds its buffers if and only if there are more than can be logged at a time |
| LogCache.BusyMost | kernel/log.c:68-234 | at no time of any run are more blocks in use or due to be unpinned than twice what can be logged and the held ones |
| LogCache.MostBusy | kernel/log.c:68-234 | a run in which that many are, when a commit begins, and its log block is not among them |
| LogCache.PanicAfterRecovery | kernel/log.c:177-185 | after a recovery of n blocks, as many as can be logged at most, n + 1 are in use when one block alone is committed and nothing is held |
| LogCache.NbufTooFew | kernel/param.h:10-11 | with NBUF buffers, on the log of LOGSIZE blocks that mkfs makes, one block less, or any more, the commit of one block comes to need more, and so does a recovery |
| LogCache.ChangesHands | kernel/bio.c:58-137 | in the cache itself: a buffer that is one short is given to another block while it is held, and the new holder is left with a count of zero |
| BufferCache.PutFirst | kernel/bio.c:130-133 | linking a buffer in at the head keeps a doubly linked ring |
| BufferCache.TakeOut | kernel/bio.c:128-129 | unlinking a buffer keeps a doubly linked ring of the others |
| BufferCache.RecycleKeeps | kernel/bio.c:77-86 | giving an unused buffer to another block changes what no block shows, and keeps one buffer per block |
| BufferCache.LoadKeeps | kernel/bio.c:98-101 | reading a block into its buffer changes what no block shows |
| BufferCache.WriteKeeps | kernel/bio.c:106-112 | writing a buffer to disk changes what no block shows |
| BufferCache.StoreKeeps | kernel/bio.c:92-112 | changing a held buffer shows in its block and in no other |
| BufferCache.CountKeepsIff | kernel/bio.c:116-151 | a buffer's count may fall to none, with the cache still in agreement with the disk, exactly if the buffer is |
| BufferCache.TwiceIff | kernel/bio.c:46-89 | over the life of a cache a block is at some time in two buffers if and only if it is block 0 of device 0 |
| BufferCache.RecycleRelabels | kernel/bio.c:77-86 | a buffer is only ever given to a block that has none |
| BufferCache.Cache.constructor | kernel/bio.c:36-53 | the cache starts as a ring over all its buffers that agrees with the disk |
| BufferCache.Cache.Binit | kernel/bio.c:43-52 | the loop builds a ring over exactly the buffers there are |
| BufferCache.Cache.Find | kernel/bio.c:66-73 | walking the ring finds the block's buffer if there is one |
| BufferCache.Cache.FindUnused | kernel/bio.c:77-87 | walking it backwards finds, among unused buffers, the one released longest ago |
| BufferCache.Cache.Bget | kernel/bio.c:58-89 | the block's buffer if it is cached, else the unused one released longest ago; none exactly if all are in use for other blocks; no block shows anything else afterwards |
| BufferCache.Cache.Bread | kernel/bio.c:92-103 | the buffer, held once more, holds what an uncached disk with the pending writes would give; it is the block's own if it has one, else the unused one released longest ago; none exactly if all buffers are in use for other blocks, and then nothing changes |
| BufferCache.Cache.Bwrite | kernel/bio.c:106-112 | the disk gets the buffer's contents; no block shows anything else |
| BufferCache.Cache.ToFront | kernel/bio.c:126-134 | moving a buffer to the head keeps the ring in order of last release |
| BufferCache.Cache.Brelse | kernel/bio.c:116-137 | one holder fewer; a buffer nobody holds becomes the most recent; no block shows anything else; the cache stays in agreement with the disk exactly if a buffer left with no holder does |
| BufferCache.Cache.Bpin | kernel/bio.c:139-144 | one holder more; nothing else changes |
| BufferCache.Cache.Bunpin | kernel/bio.c:146-151 | one holder fewer, wrapping below zero; no block shows anything else; the cache stays in agreement with the disk exactly if a buffer left with no holder does |
| Inode.WordPut | kernel/fs.c:394-399 | an entry written to an indirect block reads back, and no other entry changes |
| Inode.OneOwner | kernel/fs.c:64-103 | a data block's bit is set exactly when some inode slot or indirect entry refers to it, and exactly one does |
| Inode.AllocAddr | kernel/fs.c:383-393 | a free block hung on an address of an inode keeps ownership and every other reference and file block |
| Inode.AllocEntry | kernel/fs.c:396-399 | the same for an entry of the indirect block |
| Inode.ExtendsFiles | kernel/fs.c:377-405 | filling missing blocks changes no file |
| Inode.WriteBytes | kernel/fs.c:493-502 | rewriting a file's block changes that block's bytes of that file and nothing else |
| Inode.DropEntry | kernel/fs.c:426-429 | freeing the blocks of an indirect block one by one never meets a free block |
| Inode.DropIndirect | kernel/fs.c:431-432 | freeing the indirect block then restores ownership |
| FileSystem.RoundsSpan | kernel/fs.c:493-502 | writei's loop goes round once for each block of the file it touches |
| FileSystem.ChunkFits | kernel/file.c:149-175 | a chunk of filewrite, wherever it starts, needs at most MAXOPBLOCKS distinct blocks |
| FileSystem.Overwrite | kernel/fs.c:482-514 | the contents a write should leave: the new bytes from the offset on, the old ones elsewhere |
| FileSystem.Stored | kernel/fs.c:493-512 | the contents left when some bytes are in place beyond those that the size was moved for |
| FileSystem.Total | kernel/fs.c:493-502 | how many of n bytes are counted as written when fewer can be copied: those in whole blocks, and n if and only if all can |
| FileSystem.ShortWrite | kernel/fs.c:496-513 | a write of 10 bytes to an empty file, 3 of which can be copied, reports 10 and leaves it empty |
| FileSystem.ChunksLand | kernel/file.c:156-172 | up to where the file then ends, byte x of a write is in it exactly if no byte of its chunk up to itself is one that cannot be copied, later chunks included; every other byte of the file is as it was |
| FileSystem.ChunksAllIff | kernel/file.c:156-172 | all n bytes are counted as written if and only if the write is not to be refused as a whole and no chunk but the last that makes the file longer has a byte that cannot be copied |
| FileSystem.ChunksCopied | kernel/file.c:156-172 | with every byte there to be copied, the bytes counted as written are those in the file, and all n are unless the write is to be refused as a whole |
| FileSystem.HoleIsLeft | kernel/file.c:156-172 | a write inside a file whose first byte cannot be copied reports all n, with the first chunk as it was and the later ones written |
| FileSystem.Fs.constructor | kernel/fs.c:64-103 | a new file system is well formed, all its files empty and just its data blocks free |
| FileSystem.Fs.Balloc | kernel/fs.c:64-86 | the lowest free block, zeroed and marked, or a panic exactly if there is none |
| FileSystem.Fs.Bfree | kernel/fs.c:89-103 | clears the bit, or panics exactly if it is clear |
| FileSystem.Fs.MapAddr | kernel/fs.c:383-393 | an address of an inode gets a block if it has none, changing no file; fails only if no block is free, and then changes nothing |
| FileSystem.Fs.MapEntry | kernel/fs.c:394-402 | the same for an entry of the indirect block |
| FileSystem.Fs.Bmap | kernel/fs.c:377-405 | the block for bn, allocated if missing; ownership, all files and all sizes kept; nothing changes if it was there; what it adds to the transaction |
| FileSystem.Fs.Readi | kernel/fs.c:455-476 | delivers the slice of the file's bytes, or its beginning if a copy fails, never allocates, and changes nothing |
| FileSystem.Fs.WritePiece | kernel/fs.c:493-502 | one round of writei puts in place what could be copied, and logs the block exactly if all of it was |
| FileSystem.Fs.WriteChunks | kernel/file.c:156-172 | the loop leaves the contents, and counts the bytes as written, that the chunks one after another lead to, any of which may be refused or fail to be copied |
| FileSystem.Fs.Writei | kernel/fs.c:482-514 | puts in place exactly the bytes that could be copied, grows the file for those counted as written, leaves no hole below its size, touches no other file, fails exactly for the arguments the code refuses, and dirties a bounded number of distinct blocks |
| FileSystem.Fs.WriteChunk | kernel/file.c:149-169 | one transaction of filewrite dirties at most MAXOPBLOCKS distinct blocks, at any offset and for any number of bitmap blocks |
| FileSystem.Fs.TruncDirect | kernel/fs.c:414-419 | frees the direct blocks of one inode, each in use before, and keeps ownership |
| FileSystem.Fs.TruncIndirect | kernel/fs.c:421-433 | frees the blocks in the indirect block and that block, each in use before, and keeps ownership |
| FileSystem.Fs.Filewrite | kernel/file.c:148-175 | for any set of bytes that cannot be copied: returns n exactly if the write is not to be refused as a whole and each chunk that the next one builds on can be copied, else -1; the file has just the bytes that land, up to where the offset moved; with all copied, exactly the bytes the offset moved over; each chunk in a transaction of at most MAXOPBLOCKS blocks; no other file changes |
| FileSystem.Fs.Itrunc | kernel/fs.c:409-437 | frees exactly the inode's own blocks, never panics, empties that file and changes no other |
| Links.AddFile | kernel/sysfile.c:141-153 | naming a file in a linked directory keeps nlink equal to the names counted, for every inode |
| Links.AddDir | kernel/sysfile.c:270-279 | making a directory in a linked directory keeps the tree and every link count |
| Links.DropFile | kernel/sysfile.c:218-229 | removing a file's name keeps every link count |
| Links.DropDir | kernel/sysfile.c:218-229 | an empty directory has exactly one name, and removing it keeps the tree and every link count |
| Links.ParentStays | kernel/sysfile.c:221-224 | the parent of a removed directory keeps a link |
| Links.Forget | kernel/fs.c:337-350 | freeing an inode without links keeps the tree and every link count |
| Links.FileNameIff | kernel/sysfile.c:261-279 | a new name of a file is counted if and only if its directory is linked |
| Links.DirNameIff | kernel/sysfile.c:261-279 | a new directory leaves the tree well formed, and the link count of the inode that ".." in its parent names right, if and only if the parent is linked |
| Links.MkdirMiscounts | kernel/sysfile.c:261-279 | otherwise that inode has exactly one name more than links |
| Links.UnlinkedExists | kernel/sysfile.c:184-239 | a well-formed tree can hold a directory that no link reaches |
| Directories.Tree.Dirlookup | kernel/fs.c:526-550 | the first entry of that name, or none exactly if the name is not there |
| Directories.Tree.Dirlink | kernel/fs.c:553-580 | refuses a name that is there, otherwise enters it in the first empty place and changes nothing else |
| Directories.Tree.Isdirempty | kernel/sysfile.c:169-182 | true exactly if only the two dot entries are in use |
| Directories.Tree.constructor | kernel/fs.c:195-215 | a new file system, a root directory and free inodes, is a well-formed tree |
| Directories.Tree.Ialloc | kernel/fs.c:195-215 | the lowest free inode, wiped and given its type |
| Directories.Tree.Iput | kernel/fs.c:333-358 | the last reference to an inode without links empties and frees it, any other leaves everything alone, and the tree stays well formed |
| Directories.Tree.Link | kernel/sysfile.c:119-166 | succeeds exactly if both paths exist, the file is no directory and the name is new; changes nothing on failure; keeps every link count in a linked directory |
| Directories.Tree.Unlink | kernel/sysfile.c:184-239 | fails exactly for a missing name, a dot entry or a directory in use, changing nothing; otherwise removes that entry and its link, never panics, and keeps every link count |
| Directories.Tree.Create | kernel/sysfile.c:241-284 | the inode already there if it may be opened, else none; or a new one with its entry, dot entries and link counts; nothing changes on failure; keeps every link count in a linked directory |
| SleepLock.NextInv | kernel/sleeplock.c:21-52 | every step of every process, a kill included, keeps the locking invariant |
| SleepLock.RunInv | kernel/sleeplock.c:21-52 | the invariant holds in every state of every run |
| SleepLock.NoLostWakeup | kernel/proc.c:554-600 | when a sleep lock is free no process is asleep on it or on its way to sleep |
| SleepLock.OneHolder | kernel/sleeplock.c:21-52 | at most one process holds a sleep lock, and holdingsleep is true exactly for it |
| ExitWait.NextInv | kernel/proc.c:258-447 | every step of fork, exit, reparent, wait and kill keeps the family invariant |
| ExitWait.RunInv | kernel/proc.c:258-447 | the invariant holds in every state of every run |
| ExitWait.NoZombieWhileAsleep | kernel/proc.c:397-447 | a process that sleeps in wait has no zombie child, except that init may have one that reparent gave to it |
| ExitWait.ParentsAreAlive | kernel/proc.c:305-393 | every process but init has a parent, and no parent is unused or a zombie |
| ExitWait.ReapedOnce | kernel/proc.c:397-447 | each exit is handed to a parent at most once, with the status of that exit |
| ExitWait.InitMayMiss | kernel/proc.c:305-393 | from every start with room for four processes a run leads to a state with no lock held in which init sleeps with a zombie child given to it |
| Scheduler.RunInv | kernel/proc.c:456-550 | the invariant on CPUs, locks and process states holds in every state of every run |
| Scheduler.RunningIffOnOneCpu | kernel/proc.c:456-491 | while its lock is free, a process is RUNNING exactly if a CPU runs it, and only one ever does |
| Scheduler.SchedPanicsIff | kernel/proc.c:500-518 | sched panics exactly for a caller that holds a spinlock besides its own p->lock |
| Scheduler.LockCrossesSwitch | kernel/proc.c:456-550 | a CPU coming out of a switch holds just the lock of the process switched, and the scheduler's loop none |
| Scheduler.InterruptsFollowThread | kernel/spinlock.c:88-110 | the interrupt setting that push_off and pop_off restore is the thread's own, on whatever CPU |
| Scheduler.Acquired | kernel/spinlock.c:21-43 | taking a lock keeps noff equal to the number of locks the CPU holds |
| Scheduler.Released | kernel/spinlock.c:46-72 | releasing one does too, and interrupts stay off while another is held |
| PageTable.WalkFinds | kernel/vm.c:71-89 | walk without allocation finds the leaf table of a page exactly if the tree has one |
| PageTable.WalkGrows | kernel/vm.c:71-89 | walk with allocation takes at most two pages, keeps every mapping, and fails only if the free list runs out |
| PageTable.SetLeaf | kernel/vm.c:71-89 | writing a leaf entry changes the mapping of one virtual page |
| UserMemory.MappagesMaps | kernel/vm.c:148-168 | mappages maps a beginning of the range and nothing else: all of it, unless memory runs out or a page is mapped already |
| UserMemory.UnmapFrees | kernel/vm.c:173-195 | uvmunmap with do_free removes exactly the range and frees exactly its pages, each once |
| UserMemory.UnmapKeeps | kernel/vm.c:173-195 | without do_free it removes exactly the range and nothing else changes |
| UserMemory.UnmapPanicsIff | kernel/vm.c:173-195 | either way it goes through without panic if and only if every page of the range is a mapped leaf |
| UserMemory.UvmdeallocShrinks | kernel/vm.c:258-270 | uvmdealloc, for sizes aligned or not, frees exactly the pages that the new size has no byte in and keeps the others; no change if the size is not smaller |
| UserMemory.UvmallocGrowsOrRestores | kernel/vm.c:228-252 | uvmalloc adds zeroed pages of its own for the whole range, or restores the mappings and frees every data page it took |
| UserMemory.UvmcopyCopiesOrRestores | kernel/vm.c:308-336 | uvmcopy gives the child its own copy of every page with the same flags, or restores the child and frees every data page it took |
| FreeWalk.FreewalkFrees | kernel/vm.c:274-290 | freewalk frees each page of a table tree exactly once and does not panic on one without leaves |
| FreeWalk.UvmfreeFreesAll | kernel/vm.c:294-300 | uvmfree gives back exactly the data and table pages of the process, each once |
| FreeList.Kmem.constructor | kernel/kalloc.c:27-38 | kinit leaves free exactly the whole pages between the kernel and the end of memory |
| FreeList.Kmem.Freerange | kernel/kalloc.c:32-38 | frees each whole page of the range once |
| FreeList.Kmem.Kfree | kernel/kalloc.c:46-63 | panics exactly for what is not a page of memory; otherwise the page is put at the head of the list; the list is still one, and free and used pages make up all of them, exactly if the page was not on it |
| FreeList.Kmem.Kalloc | kernel/kalloc.c:68-82 | a page that nobody has, or 0 exactly if none is free; free and used pages still make up all of them |
| FreeList.RoundTrip | kernel/kalloc.c:46-82 | a page taken and given back leaves the list as it was |
| KernelMemory.Ram.AllocPage | kernel/kalloc.c:68-82 | the page handed out was free and is so no more; every other page stays free, or keeps its contents |
| KernelMemory.Ram.FreePage | kernel/kalloc.c:46-63 | the page is free and the next to be handed out; no other page becomes free or changes |
| KernelMemory.Ram.WalkTo | kernel/vm.c:71-89 | the loop over levels computes the model's walk |
| KernelMemory.Ram.MapOne | kernel/vm.c:155-166 | one round of the loop is mappages of one page |
| KernelMemory.Ram.MapPages | kernel/vm.c:148-168 | the loop computes the model's mappages |
| KernelMemory.Ram.UnmapOnePage | kernel/vm.c:180-194 | one round of the loop is uvmunmap of one page |
| KernelMemory.Ram.UnmapPages | kernel/vm.c:173-195 | the loop computes the model's uvmunmap |
| KernelMemory.Ram.GrowPages | kernel/vm.c:228-252 | the loop computes the model's uvmalloc, undoing on failure |
| KernelMemory.Ram.CopyPages | kernel/vm.c:308-336 | the loop computes the model's uvmcopy, undoing on failure |
| KernelMemory.Ram.FreeTables | kernel/vm.c:274-290 | the recursion with its loop computes the model's freewalk |
| Pipe.NextInv | kernel/pipe.c:58-127 | every step of readers, writers, closers and kills keeps the ring, the ends and the sleepers in order |
| Pipe.Fifo | kernel/pipe.c:76-127 | bytes come out in the order they went in, never more than PIPESIZE inside, whatever the 32-bit counters do |
| Pipe.ReadReturns | kernel/pipe.c:102-127 | a read returns the run of bytes it took; with good copies it returns none only from an empty pipe whose write end is closed |
| Pipe.FreedOnce | kernel/pipe.c:58-74 | the page is freed at most once, and then nobody is in the pipe or can get in |
| Pipe.NoLostWakeup | kernel/pipe.c:76-127 | with the lock free a sleeping writer waits on a full pipe, and a sleeping reader on an empty one unless a wakeup was lost |
| Pipe.LostIff | kernel/pipe.c:85-89 | a wakeup is lost exactly when a writer gives up on a full pipe while a reader sleeps |
| Pipe.WakeupCanBeLost | kernel/pipe.c:85-89 | a run from the start that leaves a reader asleep by a full pipe |
| Virtio.ThreeIff | kernel/virtio_disk.c:154-166 | three descriptors are found exactly when at least three are free |
| Virtio.FreeThree | kernel/virtio_disk.c:142-152 | a chain of three is freed whole and without panic |
| Virtio.Descriptors.AllocDesc | kernel/virtio_disk.c:116-126 | takes the lowest free descriptor, or none |
| Virtio.Descriptors.FreeDesc | kernel/virtio_disk.c:129-139 | frees a descriptor, or panics exactly if it is free or out of range |
| Virtio.Descriptors.FreeAll | kernel/virtio_disk.c:142-152 | the loop frees a chain along its links, ending even on a circular one |
| Virtio.Descriptors.Alloc3 | kernel/virtio_disk.c:154-166 | three descriptors, or none with the table as it was |
| Virtio.NextInv | kernel/virtio_disk.c:168-270 | every step of callers, device and interrupt handler keeps the ring invariant |
| Virtio.AtMostTwo | kernel/virtio_disk.c:168-236 | at most two requests are in flight, so neither ring holds more than two entries |
| Virtio.IndicesTell | kernel/virtio_disk.c:256-265 | the comparison of indices modulo NUM tells an empty used ring from one that is not |
| Virtio.Partition | kernel/virtio_disk.c:116-249 | in every run free descriptors and three-descriptor chains make up the table, chains are disjoint, and no panic is reached |
| Virtio.HandlerReleases | kernel/virtio_disk.c:251-270 | the handler sees an entry exactly when there is a completion, and the entry leads to the buffer of a process that is still waiting, whose data has been moved and which has not been handed back |
| Virtio.RwMoves | kernel/virtio_disk.c:168-249 | when virtio_disk_rw is done, buffer and block hold what was to be moved when the request was made |
| Virtio.NoLostWakeup | kernel/virtio_disk.c:129-139 | a process sleeps for descriptors only while fewer than three are free |
| Heap.FreeKeeps | user/umalloc.c:24-44 | putting a block back keeps the list circular, in address order and fully coalesced, other blocks untouched, and frees exactly its units |
| Heap.TakeWhole | user/umalloc.c:75-77 | handing out a whole block keeps the list in shape and overlaps no allocated block |
| Heap.TakeTail | user/umalloc.c:78-82 | handing out the tail of a block does too |
| Heap.SbrkCount | user/umalloc.c:52-54 | sbrk is asked for the right count if and only if the request is at most 2^31 - 32 bytes |
| Heap.BackedIff | user/umalloc.c:46-61 | after morecore the units that malloc takes itself to have obtained are memory if and only if the request is at most 2^31 - 32 bytes |
| Heap.Allocator.FindSlot | user/umalloc.c:30-32 | the search ends, at the free block the freed one belongs after |
| Heap.Allocator.Relink | user/umalloc.c:33-43 | the headers written, joined with either neighbour that touches |
| Heap.Allocator.Free | user/umalloc.c:24-44 | the block is free, others are allocated as before, and free plus allocated units are the units obtained |
| Heap.Allocator.Morecore | user/umalloc.c:46-61 | a new region of at least 4096 units joins the free list, or nothing changes |
| Heap.Allocator.Search | user/umalloc.c:74-88 | one round finds a block that is large enough if and only if there is one |
| Heap.Allocator.TakeFrom | user/umalloc.c:75-85 | the units handed out overlap no allocated block |
| Heap.Allocator.Malloc | user/umalloc.c:63-90 | a new block of the right size, or null exactly if no block fits and sbrk refuses; memory is asked for only if no block fits, and at most once |
| Shell.TokenAt | user/sh.c:265-308 | the cursor moves on at every token, and a word token is a maximal run of ordinary characters |
| Shell.RoundTrip | user/sh.c:327-446 | printing a command in parentheses and parsing it gives it back if and only if no part of it has more than nine words |
| Shell.ParseLine | user/sh.c:344-359 | the recursive descent ends, its cursor never going back or past the end |
| ShellParser.LineSound | user/sh.c:344-446 | every place named in a parsed command is a whole word of the line |
| ShellParser.WordReads | user/sh.c:449-493 | a terminated word reads as itself: no other terminator falls inside it |
| ShellParser.TreeReads | user/sh.c:449-493 | after nulterminate every word and file name of the command reads as its token |
| ShellParser.Peek | user/sh.c:310-320 | skips white space and looks at the next character |
| ShellParser.GetToken | user/sh.c:265-308 | the loops compute the model's token |
| ShellParser.Redirections | user/sh.c:374-397 | the loop computes the model's redirections |
| ShellParser.Words | user/sh.c:429-445 | the loop computes the model's words, failing at the tenth |
| ShellParser.Execs | user/sh.c:415-446 | computes the model's simple command or block |
| ShellParser.Block | user/sh.c:399-413 | computes the model's block |
| ShellParser.Pipes | user/sh.c:361-372 | computes the model's pipeline |
| ShellParser.Lines | user/sh.c:344-359 | the loop and recursion compute the model's line |
| ShellParser.Nulterminate | user/sh.c:449-493 | writes a zero at the end of every word of the command and nowhere else |
| ShellParser.Parse | user/sh.c:327-342 | parses all of the line or fails, and leaves every word of the command as a string that reads as its token |
| ShellParser.PrintParse | user/sh.c:327-493 | a command printed, parsed and terminated comes back word for word |
| Matcher.Match | user/grep.c:70-80 | true exactly if the text matches the pattern by the meaning of ^ . * $ |
| Matcher.MatchHere | user/grep.c:83-94 | true exactly if some beginning of the text is a word of the pattern |
| Matcher.MatchStar | user/grep.c:97-104 | true exactly if the text starts with any number of the character and then the pattern |
| Grep.PrintedSplit | user/grep.c:10-34 | what is printed are the matching lines up to the first that is too long or has a zero byte |
| Grep.PrintsAllIff | user/grep.c:10-34 | all matching lines are printed if and only if none comes at or after a line that is too long or has a zero byte |
| Grep.PrintsShort | user/grep.c:10-34 | with lines of at most 1022 characters and no zero byte exactly the matching lines are printed |
| Grep.LongLineHides | user/grep.c:17-18 | a matching line after one that is too long is not printed |
| Grep.ZeroHides | user/grep.c:20-21 | a matching line after one with a zero byte is not printed |
| Grep.Strchr | user/ulib.c:47-53 | the first newline before a zero byte, or none |
| Grep.PrintLine | user/grep.c:22-27 | the line is printed whole exactly if it matches, and the buffer is as before but for the place of its newline |
| Grep.PrintLines | user/grep.c:20-28 | prints the matching lines of the buffer and stops at the line that is not complete or has a zero byte |
| Grep.Keep | user/grep.c:29-32 | moves what is left to the front |
| Grep.Grep | user/grep.c:10-34 | for every way the reads may be cut up and every byte the input may hold, prints exactly that |

## Left out

- Boot, traps, the context-switch assembly and weak memory: a switch is an abstract transfer of control, and lock operations are atomic steps in one order.
- The log's model keeps the modified blocks, and the pins and holders of each, rather than the ring of buffers; a buffer is recycled when its count allows it, not only when it is the one released longest ago; `LogCache` says what the ring adds.
- Device registers: the disk completes each request once, successfully, in any order.
- Bits of page-table entries other than the page number and the flags, and virtual addresses at or above MAXVA: `walk` takes page numbers below it.
- copyin, copyout, exec and the initial user page table.
- Concurrency of inode operations: each call of the file system model is one step, as its locks and the log make it.
- Path names: the system calls are given the inodes their paths lead to, and no path is parsed.
- The inode cache and the table of open files, and descriptor tables, except those of pipe ends; iput is given the count of references.
- The layout of dinodes and directory entries in their blocks, and the 16-bit width of nlink.
- The order and the priority of wakeups, fairness, and whether anything ever finishes that waits for another.
- FileSystem.Fs.Writei: bytes of a copy that failed part way are in a buffer that is not logged; the model keeps them there, and does not say that an eviction takes them away again.
- FileSystem.Fs.Filewrite: covers inodes, not pipes or devices.
- Pipe.ReadReturns: the byte whose copy to the reader fails is taken out and lost, as in the code.
- LogLedger.LedgerRun: the bread and brelse of a commit are steps like those of any other holder, not tied to the block writes they come with.
- LogCache.RecoverySufficesIff: the machine whose buffers are counted has enough of them; one with NBUF all along panics in the commit of NBUF blocks, before there is a recovery of as many.
- LogLimits.HomeOverwritten: the number of buffers is not limited; with NBUF of them the commit on a log of exactly LOGSIZE blocks panics instead, as `LogCache.NoBufferIff` says.
- Heap.Allocator.Malloc: sbrk's answer is a parameter, an address from which as many units as are needed are apart from everything the allocator has; that they are memory is what BackedIff is about.
- KernelMemory.Ram.FreePage: kfree's guard on the address is in FreeList; here pages are numbers, of which the callers free only their own.
- Heap.Allocator.Search: one turn of malloc's for loop round the list; the loop goes round at most twice.
- Grep.Grep: a read that fails is not told from the end of the input.
- Shell.RoundTrip: lines without zero bytes; the running of commands is not modelled.
- Virtio.HandlerReleases: the status byte is always good.
- mkfs, the console, printf, the small user programs and the test programs.
