# xv6: storage, processes, memory, AES and the shell, in Dafny

A model of the parts of this x86 teaching kernel where correctness is a global matter: the
crash-safe storage stack, sleep and wakeup over pipes and the process table, the two memory
managers, the AES cipher, and the shell's and grep's small languages.  Code that updates things in
place is modelled as classes and array methods with the source's loops; each is proved against a
specification on values, and the promises are theorems about the specification.  Code whose point
is interleaving is also modelled as a state machine over its critical sections, for any number of
processes, and its theorems are about every run.

| files | what they model |
|---|---|
| `Blocks`, `LogSpec`, `LogCode`, `LogProtocol` | the write-ahead log: header format, commit and recovery as block writes, the code on top of the buffer cache, and runs of any number of operations with crashes |
| `Bio`, `BioCode`, `BioProtocol` | the buffer cache: its linked recency list, the code, and runs of any number of clients |
| `FsSpec`, `FsBlocks`, `FsFiles`, `FsTrunc`, `FsLog`, `FsCode`, `FsRun`, `FsCrash`, `FsDirs`, `DiskFormat` | bitmap, inodes, `bmap`, `readi`, `writei`, `itrunc`; files as flat byte sequences; how much a write logs; the file system on top of the log, with crashes; `dirlookup`; the layout of the disk byte by byte |
| `Paths`, `Icache`, `IcacheProtocol`, `IcacheLinks` | path splitting, the inode cache, `namex` by any number of clients at once, and which inodes are freed |
| `PipeRing`, `PipeProtocol`, `PipeCalls` | the ring buffer with wrapping counters; readers, writers, closers and kills with both locks; what the calls return |
| `ProcTable`, `ProcProtocol` | `fork`, `exit`, `wait`, `kill`, `wakeup1`, and runs of processes |
| `AllocSpec`, `AllocCode` | the user-level `malloc` and `free` |
| `VmSpec`, `VmSteps`, `VmCode` | the page allocator and two-level page tables |
| `AesField`, `AesBox`, `AesFips`, `AesRounds`, `AesKeys`, `AesCode`, `AesVectors` | AES and its key schedule against FIPS 197, with the standard's example |
| `Shell`, `ShellGrammar`, `ShellPrint`, `ShellWords`, `ShellCode` | the shell's parser and its grammar |
| `Grep` | the regular-expression matcher |

A kernel panic ends the run.  A method that can panic or run out of something says so in its
result; the theorems say which panics cannot happen.  What a device, the clock or another
allocator would answer is a parameter: what `sbrk` returns, whether `kalloc` and `copyuvm` succeed
in `fork`.

## Where the code and its promises part

- `log_write` panics with "too big a transaction" whenever the header is full, also for a block
  that is already in it and would only be absorbed.  So the panic can fire although no operation
  adds more than MAXOPBLOCKS blocks: `LogProtocol.AbsorbedWritePanics` builds the run.
  `LogProtocol.TooBigExactly` says when it fires in a log of more than LOGSIZE blocks: exactly when
  the header holds LOGSIZE blocks, and then every operation in progress has used up its share.
- mkfs makes a log of LOGSIZE blocks, header included (mkfs.c:26), so the same panic already fires
  one block earlier and can meet an operation that has budget left.  `LogProtocol.BudgetExactly`:
  it never does exactly when the log has more than LOGSIZE blocks.
- `log_write` tests for a full log before it takes the lock, so two processes can both pass the test
  when one place is left.  In a log of fewer than NBUF blocks the commit then writes the last block
  of the group over the block behind the log: `LogProtocol.OverflowCorrupts` builds the run.
  With NBUF blocks or more, mkfs's size included, a group that does not fit needs every buffer, and
  its commit panics before the first write.  `LogProtocol.SafeExactly`: with a log of at least two
  blocks every run is crash safe exactly when the log has at least NBUF blocks, whether or not the
  operations keep to MAXOPBLOCKS.
- The operations do not all keep to MAXOPBLOCKS.  `filewrite` puts 13 * 512 bytes into one
  operation (file.c:166), and a write of that size logs at least 13 blocks wherever it starts
  (`FsLog.ChunkOverBudget`); `FsCode.FileSystem.Writei` says exactly how many blocks a write logs.
  The header in memory holds whatever is logged (`LogProtocol.HeaderFits`), because each block needs
  a buffer of its own.  What the extra blocks lead to is a panic: "too big a transaction", also for
  an operation that keeps to its share (`LogProtocol.GreedyPanics`), or "bget: no buffers".
- NBUF equals LOGSIZE.  When no other process holds a buffer, a commit succeeds exactly when it has
  fewer than NBUF blocks; with NBUF blocks it stops with "bget: no buffers" before the first write
  (`LogCode.Log.Commit`), and `LogCode.FullGroupStops` gets there with three operations of
  MAXOPBLOCKS blocks each.  Clean buffers held by readers count against the same limit.  Recovery,
  at boot, never runs out.
- `malloc` rounds with a 32-bit addition, which leaves room for the request exactly when it is at
  most 2^32 - 8 bytes (`AllocCode.RoomExactly`), and hands `sbrk` a signed number, which is the
  number of bytes wanted exactly when the request is at most 2^31 - 16 (`AllocCode.SbrkExactly`).
- `pipewrite` returns without waking readers when it finds the pipe full and its process killed.
  `PipeProtocol.KilledWriterStrands` builds a run that leaves a reader asleep beside a full pipe,
  until another call on the pipe wakes it.
  `PipeProtocol.ServedExactly`: no run strands a reader exactly when no process that writes can be
  killed.  Writers are never stranded, and the order of bytes is kept, whoever is killed.
- `allocproc` does not clear the killed mark, and `kill` does not ask whether an entry is in use.  An
  unused entry has number 0, or that of a fork that failed, so `kill(0)` marks one and the next process
  forked is born killed: `ProcProtocol.StrayKill` builds the run.  A process is born killed exactly when
  its entry was marked while unused (`ProcProtocol.BornMarked`), which never happens as long as kill
  marks no unused entry (`ProcProtocol.BornAlive`).
- The shell treats `>` and `>>` alike: both give the same mode.

## Model

| member | source | states |
|---|---|---|
| LogSpec.HeaderRoundTrip | log.c:85-112 | the block numbers write_head stores are the ones read_head reads back |
| LogSpec.PartialInstall | log.c:68-81 | after any number of install writes the log is intact and a recovery would still give the same home blocks |
| LogSpec.FullRecovery | log.c:114-121 | a recovery that runs to the end puts every logged block in place and empties the log |
| LogSpec.RecoveryStep | log.c:68-121 | cutting a recovery after any write leaves what recovery would give unchanged |
| LogSpec.HeaderWritten | log.c:189-195 | when the header has just been written the log holds the data, and no home block has changed |
| LogSpec.BeforeHeader | log.c:174-193 | before the header write a crash recovers the old home blocks |
| LogSpec.AfterHeader | log.c:195-198 | from the header write on, through installing and erasing, a crash recovers the new ones |
| LogSpec.CommitPoint | log.c:189-199 | cut after k writes, a commit recovers to the old home blocks for k <= n and to the new ones from the header write on |
| LogSpec.CrashAtomicity | log.c:68-199 | for every crash point of a commit, and any number of crashes in the recoveries that follow, a completed recovery leaves all home blocks old or all new, new exactly when the first header write happened |
| LogSpec.InstalledDistinct | log.c:68-81 | with distinct block numbers, installing puts the i-th logged block at the i-th home address |
| LogCode.Log.constructor | log.c:52-65 | an empty header and no operation in progress, before recovery |
| LogCode.Log.Transfer | log.c:74-79 | read two blocks, copy one onto the other and write it out: one disk write of the current contents, only that block stops being dirty, and buffers others hold stay as they are; it finds its buffers when one is spare and the second block is cached |
| LogCode.Log.MoveOne | log.c:73-79 | one round of either loop, between an entry and its log block |
| LogCode.Log.WriteLog | log.c:174-187 | the disk writes are a prefix of the log writes of the pending blocks; all of them when a buffer is spare and every entry is pinned, none when no buffer is spare |
| LogCode.Log.InstallTrans | log.c:68-81 | the disk writes are a prefix of the install writes; all of them when the entries are pinned and a buffer is spare, or nothing is dirty or held |
| LogCode.Log.WriteHead | log.c:100-112 | one write, of the header with the current entries, if a buffer is spare |
| LogCode.Log.HeaderImage | log.c:106-109 | the loop builds exactly the header block for the entries |
| LogCode.Log.ReadHead | log.c:84-95 | the entries in memory become those on disk, and nothing is written; it fails exactly when no buffer is spare |
| LogCode.Log.CopyHead | log.c:90-93 | the loop loads exactly the entries of the header block |
| LogCode.Log.RecoverFromLog | log.c:114-121 | the disk writes are exactly the recovery writes, nothing is dirty and the log is empty |
| LogCode.Log.Commit | log.c:189-199 | it succeeds exactly when there is nothing to commit or the blocks logged and the clean buffers others hold are fewer than NBUF; then the disk writes are exactly the 2n+2 of the specification, in order, disk and cache agree on every home block and the log is empty; otherwise nothing is written |
| LogCode.SpareExactly | bio.c:86-95 | a buffer can be recycled exactly when the dirty blocks and the clean buffers held are fewer than NBUF |
| LogCode.PinnedFew | bio.c:62-96 | distinct blocks that are dirty or held number at most NBUF |
| LogCode.FullGroupStops | log.c:189-199 | three operations of MAXOPBLOCKS blocks each make a group whose commit stops before its first write |
| LogCode.Log.BeginOp | log.c:125-140 | an operation begins exactly when no commit is under way and the log has room for one more |
| LogCode.Log.EndOp | log.c:145-171 | the last operation to end, and no other, is told to commit; the panic fires exactly during a commit |
| LogCode.Log.LogWrite | log.c:211-230 | the exact panic conditions; otherwise the block number is absorbed or appended and its block, and no other, becomes dirty |
| LogProtocol.InvStep | log.c:52-230 | every step of every process, of commit, crash and recovery keeps the invariant, as long as what is logged fits the log on disk or fills every buffer |
| LogProtocol.CrashSafety | log.c:8-29 | in every run, whatever the operations log, as long as it fits the log on disk or fills every buffer: recovery from a crash at any moment gives the initial home blocks with exactly the committed operations applied; these are whole operations that have ended |
| LogProtocol.CacheStep | bio.c:62-96 | no step pins more blocks than there are buffers |
| LogProtocol.HeaderFits | log.c:33-36 | in every run, whatever the operations log, the header in memory has room for it |
| LogProtocol.LogFits | log.c:215-227 | in a log of at least NBUF blocks that is always so |
| LogProtocol.OverflowCorrupts | log.c:215-227 | with a log of fewer than NBUF blocks, a run that keeps to MAXOPBLOCKS, after which nothing is committed and yet recovery leaves a home block changed |
| LogProtocol.SafeExactly | log.c:215-227 | all runs are crash safe if and only if the log has at least NBUF blocks; the same for the runs whose operations keep to MAXOPBLOCKS blocks |
| LogProtocol.RunProcs | log.c:124-230 | whatever the size and whatever is logged: outstanding counts the operations, sleepers have reason to sleep, no block is named twice |
| LogProtocol.RecoveryCompletes | log.c:114-121 | in such a run, when recovery completes the disk itself holds those blocks and the log is empty |
| LogProtocol.GroupCommit | log.c:145-171 | during a commit nothing is outstanding, nothing can be logged, no operation can end, so "log.committing" cannot fire |
| LogProtocol.Durability | log.c:162-170 | as long as what is logged fits, once the last operation has returned everything logged so far is committed |
| LogProtocol.CommittedGrows | log.c:97-99 | what is committed stays committed, in the same order |
| LogProtocol.LogSpace | log.c:124-140 | if every operation keeps to MAXOPBLOCKS blocks, the blocks logged and those the operations may still add fit LOGSIZE, and they are distinct |
| LogProtocol.TooBigExactly | log.c:215-218 | with log.size above LOGSIZE and operations that keep to MAXOPBLOCKS the panic fires exactly when the header is full, and then never for an operation with budget left; "outside of trans" never fires |
| LogProtocol.BudgetExactly | log.c:215-216 | in runs whose operations keep to MAXOPBLOCKS, the panic never meets an operation with budget left if and only if log.size is above LOGSIZE |
| LogProtocol.GreedyPanics | log.c:215-216 | a run in which one operation adds one block more than MAXOPBLOCKS and another, with budget left, meets the panic |
| LogProtocol.AbsorbedWritePanics | log.c:215-224 | a run in which it fires although every operation keeps to MAXOPBLOCKS blocks |
| LogProtocol.SleepersWaitForSomeone | log.c:128-133 | whoever sleeps in begin_op has reason to, and a commit or an operation in progress will wake it |
| Bio.ReleaseKeepsLru | bio.c:124-142 | moving the released buffer to the front keeps the list sorted by last release |
| Bio.VictimIsLeastRecent | bio.c:86-94 | the buffer recycled was released before every other buffer that could have been |
| Bio.Agreement | bio.c:8-21 | a block that is neither busy nor dirty in the cache has its current contents on the disk |
| Bio.GetOk | bio.c:63-96 | bget keeps the invariant, hit or miss |
| Bio.GetOutcome | bio.c:63-96 | when bget sleeps and when it panics, exactly |
| Bio.FillOk | bio.c:105-106 | filling a missed buffer keeps the invariant and gives it the current contents of its block |
| Bio.ModifyOk | bio.c:13-13 | a holder may store into its buffer |
| Bio.MarkDirtyOk | log.c:228-228 | pinning keeps the invariant |
| Bio.BwriteOk | bio.c:113-119 | bwrite keeps the invariant and brings the disk up to date |
| Bio.BrelseOk | bio.c:124-142 | brelse keeps the invariant |
| BioCode.BufferCache.constructor | bio.c:40-57 | every buffer is on the linked list once, and nothing is cached |
| BioCode.BufferCache.PushFront | bio.c:133-136 | four link assignments put the buffer at the front of a consistent doubly linked ring |
| BioCode.BufferCache.Unlink | bio.c:131-132 | two link assignments take it out |
| BioCode.BufferCache.Lookup | bio.c:71-81 | the walk finds the buffer caching the block, or there is none |
| BioCode.BufferCache.FindVictim | bio.c:86-95 | the backward walk finds the last buffer neither busy nor dirty, or there is none |
| BioCode.BufferCache.Bget | bio.c:63-96 | hit, sleep, recycle or panic, exactly as specified |
| BioCode.BufferCache.Iderw | memide.c:38-59 | a dirty buffer is written and clean, otherwise it is filled from disk |
| BioCode.BufferCache.Bread | bio.c:100-109 | one pass: a busy buffer with the current contents of the block, disturbing no other buffer and nothing dirty; or it sleeps, exactly when someone holds the block; or it panics, exactly when the block is not cached and every buffer is busy or dirty |
| BioCode.BufferCache.Store | bio.c:13-13 | the block's current contents become the data, on no other block |
| BioCode.BufferCache.Pin | log.c:228-228 | the buffer is dirty, nothing else changes |
| BioCode.BufferCache.Bwrite | bio.c:113-119 | one disk write, of the block's current contents |
| BioCode.BufferCache.Brelse | bio.c:124-142 | not busy any more, first in the list, the rest in order |
| BioProtocol.InvStep | bio.c:8-21 | every step of every client keeps the invariant |
| BioProtocol.CacheAgreement | bio.c:8-21 | in every run a client that has read a block sees what the last client to store into it left, and is alone with it |
| BioProtocol.ViewIsLastStored | bio.c:8-21 | the current contents of a block are what was last stored into it |
| BioProtocol.CleanMatchesDisk | bio.c:62-142 | at most one buffer per block, and every valid clean idle buffer equals the disk |
| BioProtocol.DirtyStays | log.c:228 | a logged block stays dirty in the cache until its holder has written it out |
| BioProtocol.LeastRecentlyReleased | bio.c:39-96 | the list holds each buffer once, most recently released first, and a recycled buffer is the least recently released candidate |
| BioProtocol.SleeperHasHolder | bio.c:73-79 | whoever sleeps on a buffer sleeps on one that a client holds |
| FsSpec.PutBitTest | fs.c:62-92 | setting or clearing a block's bit changes that block's bit and no other |
| FsSpec.PutInodeGet | fs.c:204-219 | the inode stored is the one read back; the others in the block are untouched |
| FsBlocks.GrownOk | fs.c:360-388 | giving a free block to an empty slot keeps ownership exact, every other file and the other disk inodes |
| FsBlocks.GrownExtends | fs.c:360-388 | and leaves every block already mapped where it is, with its data |
| FsBlocks.DataWrite | fs.c:486-487 | storing into a data block moves no other block and no address |
| FsCode.FileSystem.ScanBlock | fs.c:63-65 | the first clear bit of one bitmap block |
| FsCode.FileSystem.Put | fs.c:486-488 | one block changes, and the store is the next in the history of stores |
| FsCode.FileSystem.Balloc | fs.c:55-77 | the first free block, which no slot owns, marked and zeroed; or every bit is set |
| FsCode.FileSystem.Bfree | fs.c:80-95 | clears the bit; the panic fires exactly when it was clear |
| FsCode.FileSystem.GrowSlot | fs.c:366-384 | a free block goes into the empty slot, or the disk is full and nothing changed |
| FsCode.FileSystem.SetSlot | fs.c:366-384 | the new block's number is in its slot, in the inode or in the indirect block, and only there |
| FsCode.FileSystem.Bmap | fs.c:360-388 | the block of the file, allocated if need be, everything else where it was; unchanged when it was mapped; fails only when the disk is full |
| FsCode.FileSystem.Iupdate | fs.c:203-219 | the disk inode becomes the one in memory |
| FsCode.FileSystem.Readi | fs.c:439-462 | exactly the slice of the file's contents, the exact error condition, and nothing changed or allocated |
| FsCode.FileSystem.ReadBlock | fs.c:454-460 | one round gives the next bytes of the file, at least one |
| FsCode.FileSystem.Writei | fs.c:467-496 | the exact error condition; on success the file is the old one spliced, the size the maximum, other files untouched, disk inodes up to date; "out of blocks" only when the disk is full; and the exact number of distinct blocks it logs: those it touches, the bitmap blocks of new ones, the indirect block and the inode if they change |
| FsCode.FileSystem.WriteLoop | fs.c:483-489 | the loop splices the bytes and logs the blocks of the specification |
| FsCode.FileSystem.WriteChunk | fs.c:484-488 | one round of it |
| FsCode.FileSystem.Enlarge | fs.c:491-494 | the new size in the inode, in memory and on disk |
| FsCode.FileSystem.Itrunc | fs.c:395-423 | the file is empty and owns nothing, other files untouched, and "freeing free block" is not reached |
| FsCode.FileSystem.FreeIndirect | fs.c:409-418 | every block of the indirect block and the block itself are freed, without panic |
| FsFiles.ChunkBytes | fs.c:484-488 | storing one chunk changes exactly its bytes of this file and no byte of another |
| FsFiles.UpdatedOk | fs.c:204-219 | iupdate brings the one lagging disk inode up to date and disturbs nothing else |
| FsFiles.WriteStep | fs.c:483-489 | one round of the loop splices one more chunk and keeps everything else |
| FsFiles.StoredStep | fs.c:483-494 | the disk inode lags only once the file grows, so the conditional iupdate is enough |
| FsFiles.WriteInside | fs.c:491-495 | a write inside the file ends with the inode on disk up to date without iupdate |
| FsFiles.WriteGrew | fs.c:491-495 | a write past the end ends with the new size and the inode on disk |
| FsTrunc.FreeStep | fs.c:402-419 | the next block to free still has its bit set, and freeing it is the next state |
| FsTrunc.ClearedOwned | fs.c:395-423 | with the inode emptied, ownership is exact again and other files keep their blocks |
| FsTrunc.TruncEnd | fs.c:421-422 | the emptied inode stored completes the truncation |
| FsLog.LogSize | fs.c:466-496 | how many distinct blocks are logged before the inode, from the ownership before and after |
| FsLog.AllocTrans | fs.c:55-77 | allocations in a row log what they would log together |
| FsLog.ChunkOverBudget | file.c:166-166 | filewrite's chunk logs more than MAXOPBLOCKS blocks, wherever it starts |
| FsLog.ChunkExceeds | file.c:166-166 | it touches thirteen blocks when aligned and fourteen otherwise |
| FsLog.SmallChunkFits | file.c:161-166 | on a disk with one bitmap block, a write of up to six blocks' worth logs at most MAXOPBLOCKS blocks |
| FsRun.RunCalls | fs.c:395-496 | any sequence of reads, writes and truncations, as calls of the code: every answer is the one flat byte sequences would give, and the files end up as they would; it stops early only at a write, with the disk full; the file system is consistent after each call, and the stores of each call are what took the blocks from one state to the next |
| FsRun.DoCall | fs.c:395-496 | one such call |
| FsRun.HistoryMore | fs.c:395-496 | a call extends the history of states by the stores it made, none of them below the inode blocks |
| FsRun.OneOwner | fs.c:360-423 | a block number is in at most one direct, indirect or indirect-block slot of all files, and its bit is set |
| FsRun.SetBitOwned | fs.c:55-77 | a set data bit is owned by some slot |
| FsCrash.CallsSurvive | log.c:8-29 | the file system on the log: calls made one after the other, the stores of each logged as one operation, in any run of the logging protocol; whenever the machine stops, exactly the stores of the first k calls are committed, and a completed recovery, cut short before any number of times, leaves a consistent file system whose files are the initial ones after those k calls on flat byte sequences |
| FsCrash.RunFollows | log.c:123-171 | in such a run what is committed and pending is the calls' stores in order, and a call that has ended has logged all of its own |
| FsCrash.WholeCalls | log.c:145-171 | the committed stores are those of the first k calls, for some k: no call is split |
| FsCrash.HistoryBlocks | fs.c:395-496 | replaying the stores of the first k calls gives the blocks after them, and touches nothing below the inode blocks |
| FsCrash.FrameFiles | mkfs.c:95-105 | a consistent file system and its files depend on no block below the inode blocks |
| DiskFormat.InodeFormat | fs.h:29-36 | where each field of an inode is in its block, byte by byte |
| DiskFormat.FileOnDisk | fs.c:352-356 | in a consistent file system the size and every byte of every file, read off the bytes of the disk alone |
| DiskFormat.BitmapOnDisk | fs.h:44-48 | which bit of which byte stands for a block, and that it is set exactly when the block is metadata or some file owns it |
| DiskFormat.HeaderOnDisk | log.c:33-36 | where the count and the block numbers of the log header are |
| Paths.Skipelem | fs.c:580-603 | the first element, cut to DIRSIZ, and the rest without leading slashes; none exactly when there is no element |
| Paths.SkipSlashes | fs.c:586-587 | stops at the first character that is no slash |
| Paths.SkipName | fs.c:591-592 | stops at the first slash |
| Paths.PartsElements | fs.c:566-578 | slashes, a name, slashes and a rest split into the name and the rest's elements |
| Paths.LastElement | fs.c:570-578 | the rest is empty exactly for the last element |
| Paths.JoinElements | fs.c:574-578 | splitting names joined with slashes gives the names |
| Paths.SkipUnique | fs.c:568-572 | these conditions determine the name and the elements left |
| FsDirs.Dirlookup | fs.c:509-533 | the first entry in use with the name, its number and offset; missing, or the panic for a torn entry, exactly otherwise; nothing changes |
| FsDirs.SameName | fs.c:501-505 | namecmp is zero exactly when the names agree up to NUL or DIRSIZ characters |
| FsDirs.NameMapFirst | fs.c:517-530 | as a map from names to numbers: the first entry in use wins |
| FsDirs.LookupIsTree | fs.c:509-533 | looking a name up in the tree that namex walks is what dirlookup does on the directory's bytes |
| Icache.IgetUnique | fs.c:224-255 | iget keeps at most one entry per inode and returns one for the inode asked for |
| Icache.InodeCache.constructor | fs.c:158-167 | no entry in use |
| Icache.InodeCache.Iget | fs.c:224-255 | the entry that caches the inode, whichever it is, with one more reference; else the first unused one, with one reference and not loaded; else, all of them in use, the panic; and no other entry changes |
| Icache.InodeCache.TryLock | fs.c:279-283 | locked exactly when it was not busy |
| Icache.InodeCache.Iput | fs.c:322-340 | dropped unless it is the last reference to a loaded inode without links; then to be freed, or the panic when it is busy |
| IcacheProtocol.PutKeeps | fs.c:322-340 | a client that keeps a reference to what it has locked never meets "iput busy" |
| IcacheProtocol.IgetKeeps | fs.c:224-255 | iget keeps the counts exact and the inode of every entry in use |
| IcacheProtocol.LockKeeps | fs.c:270-283 | a lock is taken only when nobody has it, and has one holder |
| IcacheProtocol.UnlockKeeps | fs.c:301-310 | and is given up |
| IcacheProtocol.FreedKeeps | fs.c:330-336 | the second part of iput keeps the counts exact |
| IcacheProtocol.StepBy | fs.c:224-348 | every step keeps the invariant, the other clients' references and locks, and the inode of every entry in use |
| IcacheProtocol.ReferencesExact | fs.c:224-348 | in every run, at most one entry per inode in use, ref is the number of references held, and the panics "ilock", "iunlock" and "iput busy" are not reached |
| IcacheProtocol.NamexBalanced | fs.c:609-642 | when namex returns, in any interleaving, its client has the same locks and one reference more on success, none on failure |
| IcacheProtocol.NamexFinds | fs.c:609-642 | while the directories stand still it returns the inode the path names, or its parent, and fails exactly when there is none |
| IcacheLinks.CachedLinks | fs.c:269-298 | in every run, a loaded inode in use that nobody is freeing has in the cache the link count it has on disk |
| IcacheLinks.LockedIsLoaded | fs.c:269-298 | in every run, a client of namex past ilock has the directory locked, and loaded until it unlocks it |
| IcacheLinks.FreesLastUnlinked | fs.c:324-330 | iput starts to free an inode only through the one pointer there is to it, when it has no links and nobody has it locked |
| IcacheLinks.FreeingUnlinked | fs.c:324-336 | while it is being freed its client alone has the lock and it gets no links |
| IcacheLinks.LastPointerFrees | fs.c:324-338 | whoever lets go of the last pointer to a loaded inode without links has freed it on disk |
| IcacheLinks.LinkedStays | fs.c:311-338 | an inode leaves the disk only when it has no links, by a client that is freeing it |
| IcacheLinks.NextLinks | fs.c:180-348 | every step, ialloc and changes of link counts included, keeps cache and disk in agreement |
| IcacheLinks.NamexStarts | fs.c:613-616 | a path that begins with '/' starts at the root, any other at an inode its client has a pointer to |
| IcacheLinks.ParentName | fs.c:605-655 | nameiparent gives the last element of the path, whatever happens to the directories meanwhile |
| IcacheLinks.NamexCall | fs.c:609-642 | a whole call: started there, it returns what the path names in the tree, in any interleaving while the directories stand still, and leaves its client with the locks and pointers it had when it called, and one pointer to the result |
| PipeRing.Occupancy | pipe.c:99-126 | the 32-bit comparisons see the true occupancy, wrap-around included |
| PipeRing.PutOk | pipe.c:109-109 | a byte stored joins the history and overwrites nothing unread |
| PipeRing.GetOk | pipe.c:136-136 | a byte taken is the next one written |
| PipeRing.Buffer.constructor | pipe.c:28-65 | an empty pipe |
| PipeRing.Buffer.CopyIn | pipe.c:98-110 | bytes go in, in order, until all are in or the pipe is full |
| PipeRing.Buffer.CopyOut | pipe.c:133-137 | the next bytes written, fewer than asked only when the pipe is empty |
| PipeProtocol.StepKeeps | pipe.c:67-145 | every step of every process keeps the invariant, kills included |
| PipeProtocol.KillKeeps | proc.c:435-453 | so does a kill |
| PipeProtocol.NoWriterStranded | pipe.c:92-145 | in every run with kills, whenever the pipe lock is free, a sleeping writer means a full pipe with the read end open |
| PipeProtocol.NoReaderStranded | pipe.c:68-145 | until a killed writer has left a full pipe, a sleeping reader means an empty pipe with the write end open |
| PipeProtocol.KilledWriterStrands | pipe.c:99-103 | a run in which a killed writer leaves a reader asleep beside a full pipe |
| PipeProtocol.ServedExactly | pipe.c:99-103 | no run in which only the processes of one set are killed and only those of another write strands a reader, if and only if the sets are disjoint |
| PipeProtocol.NeverBoth | pipe.c:92-145 | until then, whenever the pipe lock is free, readers and writers are not asleep at the same time |
| PipeProtocol.Fifo | pipe.c:92-145 | in every run with kills, the bytes returned by all reads are a prefix of the bytes accepted by all writes, at most PIPESIZE behind |
| PipeCalls.ReadReturns | pipe.c:120-145 | in every run with kills, a read that is not cut short returns the number of bytes it got: all it asked for, or fewer with the pipe then drained, and none only when the write end is closed too; -1 exactly for a killed process at a drained open pipe; the bytes are one stretch the call itself took from the pipe, with the lock held and nothing coming in |
| PipeCalls.WriteReturns | pipe.c:92-118 | a write returns the length of its message when the pipe has accepted all of it from this call, in order; else -1, with the pipe full and the process killed or the read end closed, after a proper part from the front |
| PipeCalls.WriteStored | pipe.c:98-110 | at any moment of a write call the pipe has accepted from it exactly the bytes it has counted, in order, whoever else writes in between |
| PipeCalls.StepBytes | pipe.c:92-145 | bytes move only one at a time, from the message of a writer in its loop or to a reader in its copy loop |
| PipeCalls.EndsClosed | pipe.c:67-89 | an end is open as long as it has a descriptor, and closed once the close of the last one has gone through |
| ProcTable.Table.constructor | proc.c:12-25 | every entry unused |
| ProcTable.Table.Wakeup1 | proc.c:413-421 | for every channel: nobody sleeps on it afterwards, each that did differs only in being runnable, every other entry is as it was |
| ProcTable.Table.Exit | proc.c:205-221 | the parent woken, the children passed to init, init woken if one is a zombie, the process a zombie |
| ProcTable.Table.WaitScan | proc.c:234-265 | a zombie child is found exactly when there is one, the first is freed and its number returned; else the caller sleeps, not killed and with a child, or gives up, killed or without one |
| ProcTable.Table.Fork | proc.c:136-178 | a child exactly when there is an unused entry and memory; it is the first unused entry, runnable, with the caller as parent and the next number; else that entry stays unused |
| ProcTable.Table.Kill | proc.c:436-453 | the first process with the number, if there is one, is marked and not asleep any more, nothing else changes |
| ProcProtocol.NextKeeps | proc.c:135-266 | every critical section keeps the invariant |
| ProcProtocol.ForkKeeps | proc.c:135-178 | fork keeps the invariant |
| ProcProtocol.ExitKeeps | proc.c:205-221 | exit keeps it |
| ProcProtocol.ExitWaiter | proc.c:205-221 | whoever is still asleep in wait after an exit has gained no zombie and lost no child |
| ProcProtocol.WaitKeeps | proc.c:227-266 | wait keeps it |
| ProcProtocol.KillKeeps | proc.c:435-453 | kill keeps it |
| ProcProtocol.LiveParent | proc.c:210-217 | every process in use but init has a parent neither unused nor a zombie |
| ProcProtocol.WaitersServed | proc.c:225-266 | a process asleep in wait has a child and no zombie child |
| ProcProtocol.ReapedOnce | proc.c:241-254 | over any run no exited child is returned by wait twice |
| ProcProtocol.ForkedOrReturned | proc.c:136-266 | in every run, the numbers fork has returned are those of the processes in use and those wait has returned, and no number is both |
| ProcProtocol.ReturnedToParent | proc.c:228-266 | wait returns a process that has exited, to the process that forked it or to init when that one has exited too |
| ProcProtocol.ParentIsForker | proc.c:136-221 | a process in use belongs to the one that forked it, or to init once that one has exited, and is a zombie exactly when it has exited itself |
| ProcProtocol.KillReaches | proc.c:436-453 | kill of a process in use marks it, gets it out of any sleep and touches no other |
| ProcProtocol.BornMarked | proc.c:39-77 | a new process is killed exactly when its entry was marked |
| ProcProtocol.BornAlive | proc.c:39-77 | in runs in which kill marks no unused entry no process is born killed |
| ProcProtocol.StrayKill | proc.c:436-447 | a run in which kill(0) marks an unused entry and the next process forked is born killed |
| AllocSpec.Partition | umalloc.c:24-90 | free and live blocks partition the units obtained from the kernel |
| AllocSpec.JoinedRightOk | umalloc.c:33-35 | joining with the free block after keeps the heap sound but for one link |
| AllocSpec.KeptRightOk | umalloc.c:36-37 | so does linking to what follows when it is no neighbour |
| AllocSpec.JoinedLeftOk | umalloc.c:38-40 | joining with the free block before completes it |
| AllocSpec.InsertedOk | umalloc.c:41-42 | linking in between completes it, and no two free neighbours remain |
| AllocSpec.TakenOk | umalloc.c:76-77 | handing out a whole block keeps the heap sound |
| AllocSpec.CutOk | umalloc.c:78-82 | handing out the tail of a block keeps the heap sound |
| AllocSpec.ExtendedOk | umalloc.c:54-58 | so does a region from sbrk above the old break |
| AllocCode.RoomExactly | umalloc.c:69-69 | the units hold the request and a header exactly when the 32-bit addition does not wrap |
| AllocCode.SbrkExactly | umalloc.c:54-54 | sbrk is asked for the units wanted exactly for requests up to 2^31 - 16 bytes |
| AllocCode.Allocator.constructor | umalloc.c:21-22 | nothing allocated |
| AllocCode.Allocator.FindSlot | umalloc.c:30-32 | the loop ends, at the list entry the block goes after |
| AllocCode.Allocator.JoinAfter | umalloc.c:33-37 | the block has taken over a free neighbour after it or points at what follows; other blocks keep their size |
| AllocCode.Allocator.JoinBefore | umalloc.c:38-42 | the block is free, alone or within its neighbour, and the list is sound and coalesced |
| AllocCode.Allocator.Free | umalloc.c:24-44 | the block is no longer live and its units lie in a free block, all other live blocks and the heap's units are as before, the list is sound and coalesced |
| AllocCode.Allocator.Morecore | umalloc.c:46-61 | on success one more region, of at least 4096 units, on the free list, and a free block of the size wanted |
| AllocCode.Allocator.Malloc | umalloc.c:63-90 | a new live block of exactly the units the request takes, all others untouched; morecore succeeds once exactly when nothing fitted and sbrk gives, and the result is 0 exactly when nothing fitted and sbrk refuses |
| AllocCode.Allocator.TakeFrom | umalloc.c:75-84 | exactly the units asked for leave the free list, as a new live block |
| AllocCode.NoFit | umalloc.c:86-88 | back at freep, no block on the list is big enough |
| VmSpec.PopOk | kalloc.c:131-133 | taking the first free page keeps every page either free once or in use |
| VmSpec.PushOk | kalloc.c:92-94 | so does giving one back |
| VmSpec.EntryFrame | vm.c:82-82 | an entry gives back the page, whether it is present and whether it is for users |
| VmSteps.AttachOk | vm.c:54-61 | a new empty table maps nothing and belongs to its directory |
| VmSteps.MapOk | vm.c:82-82 | mapping the next page extends the address space by exactly that page |
| VmSteps.UnmapOk | vm.c:270-277 | freeing a mapped page and clearing its entry removes exactly that page |
| VmSteps.SkipOk | vm.c:267-269 | without a table here nothing is mapped further up, so the 4 MB step passes no mapped page |
| VmSteps.TablesStep | vm.c:292-297 | each table page is freed once and is still owned until then |
| VmSteps.TablesEnd | vm.c:298-298 | after the directory itself nothing of it is left in use |
| VmSteps.OtherSpace | vm.c:41-64 | work on one directory leaves every other address space as it was |
| VmCode.Machine.constructor | kalloc.c:57-64 | every page in use, none free |
| VmCode.Machine.Kalloc | kalloc.c:118-153 | the first page of the linked list, or 0 when there is none |
| VmCode.Machine.Kfree | kalloc.c:72-94 | the page is first in the list and filled with ones; the panic fires exactly for an address that is not a page of the managed range |
| VmCode.Machine.Freerange | kalloc.c:58-64 | exactly the pages of the range become free |
| VmCode.Machine.Walkpgdir | vm.c:45-64 | the table of the page, made if asked for; no mapping and no user page changes |
| VmCode.Machine.Mappages | vm.c:70-89 | each page gets its entry, in order, no other entry changes; out of memory only with no page left, remap exactly for a page already mapped |
| VmCode.Machine.MapUser | vm.c:82-82 | the page belongs to the address space, at that address and no other |
| VmCode.Machine.Deallocuvm | vm.c:257-280 | afterwards a user page is mapped exactly when it is below the new size, lower pages keep their contents, and the panic is not reached |
| VmCode.Machine.FreePage | vm.c:270-277 | one mapped page is freed and unmapped, without panic |
| VmCode.Machine.Allocuvm | vm.c:223-250 | mapped exactly below the new size on success, below the old one on failure; failure only when fewer free pages than two for each new page; new pages are zero and open to user programs, old ones and other directories untouched |
| VmCode.UserReaches | vm.c:44-66 | a page open to user programs is so at both levels of the table |
| VmCode.Machine.FreeHeld | vm.c:242-246 | the page that could not be mapped goes back |
| VmCode.Machine.Freevm | vm.c:285-299 | every page the directory owned is on the free list, once, and no other page has moved |
| AesField.Mult | aes.c:136-150 | the loop computes the product |
| AesField.MulAdd | aes.c:136-150 | multiplication by a constant is linear |
| AesField.MulLeft | aes.c:136-150 | and in its other argument |
| AesField.XTimesAdd | aes.c:129-134 | xTimes is linear |
| AesField.MulIsPoly | aes.c:129-150 | the product is the polynomial product modulo x^8 + x^4 + x^3 + x + 1 (section 4.2 of FIPS 197) |
| AesField.RemainderAdd | aes.c:129-134 | the remainder used there is linear |
| AesField.RemainderSmall | aes.c:129-134 | the identity below degree 8 |
| AesField.RemainderModulus | aes.c:130-130 | and zero on the multiples of the modulus |
| AesBox.InvSBoxInverts | aes.c:35-71 | invSBox undoes sBox, for every byte |
| AesFips.SBoxIsDefined | aes.c:35-52 | sBox is the affine transform of the field inverse (section 5.1.1 of FIPS 197) |
| AesFips.ShiftIsDefined | aes.c:96-106 | row r moves r places to the left |
| AesFips.MixIsDefined | aes.c:153-181 | each column is multiplied by the matrix of equation 5.6 of FIPS 197 |
| AesRounds.InvSubBytesInverts | aes.c:81-93 | invSubBytes undoes subBytes |
| AesRounds.InvShiftRowsInverts | aes.c:96-126 | invShiftRows undoes shiftRows |
| AesRounds.InvMixColumnsInverts | aes.c:153-211 | invMixColumns undoes mixColumns |
| AesRounds.UnmixedColumn | aes.c:153-211 | on one column: the two coefficient matrices are inverse |
| AesRounds.AddRoundKeyInverts | aes.c:214-222 | addRoundKey undoes itself |
| AesRounds.Meets | aes.c:276-319 | before undoing a round, decryption is in the state encryption was in half way through the next |
| AesRounds.RoundTrip | aes.c:276-319 | the round trip for any number of rounds |
| AesRounds.TransposedTwice | aes.c:17-31 | loadFromState undoes loadToState |
| AesRounds.DecryptEncrypt | aes.c:276-319 | decryption gives back every block, for every key size and all round keys |
| AesKeys.KeyColumn | aes.c:214-222 | what addRoundKey adds to a column, read from the top, is the word of the round key |
| AesKeys.RotPack | aes.c:225-228 | rotWord moves each byte one place up |
| AesKeys.SubPack | aes.c:231-238 | subWord sends each byte through the table |
| AesKeys.RconIsPower | aes.c:73-77 | the constants are the powers of x in the top byte |
| AesKeys.KeyExpansion | aes.c:240-258 | the key, then each word from the one before it and the one keySize places back; the rest of the array untouched |
| AesVectors.ScheduleIs | aes.c:240-258 | the key schedule of Appendix A.1 of FIPS 197 |
| AesVectors.AppendixB | aes.c:276-297 | with it, the example of Appendix B of FIPS 197 is encrypted as printed there |
| AesCode.SubState | aes.c:81-86 | the loop substitutes every byte |
| AesCode.InvSubState | aes.c:88-93 | and back |
| AesCode.RotateRow | aes.c:98-108 | one row rotated in place, the others untouched |
| AesCode.ShiftState | aes.c:96-110 | the loops rotate every row |
| AesCode.InvShiftState | aes.c:112-126 | and rotate it back |
| AesCode.MixState | aes.c:153-181 | the loop mixes every column |
| AesCode.InvMixState | aes.c:183-211 | and unmixes it |
| AesCode.AddKeyState | aes.c:214-222 | the loop adds every key byte |
| AesCode.LoadState | aes.c:17-31 | rows become columns |
| AesCode.EncryptRounds | aes.c:284-289 | the loop goes through the states of the cipher |
| AesCode.DecryptRounds | aes.c:307-312 | and of its inverse |
| AesCode.AesEncrypt | aes.c:276-296 | the code computes the cipher |
| AesCode.AesDecrypt | aes.c:299-319 | the code computes its inverse |
| Shell.GetToken | sh.c:266-308 | every token but the end moves the cursor, and a word is a maximal run of word characters |
| Shell.ParseLine | sh.c:345-359 | the mutually recursive parser ends on every input, by cursor progress, with the cursor in the line |
| Shell.ParsePipe | sh.c:362-372 | likewise |
| Shell.ParseExec | sh.c:416-446 | likewise |
| Shell.ParseBlock | sh.c:400-413 | likewise |
| Shell.ParseRedirs | sh.c:375-397 | likewise |
| Shell.ParseArgs | sh.c:429-441 | likewise |
| ShellGrammar.ParsesExactly | sh.c:328-442 | parsecmd accepts exactly the sentences of the grammar, however they are laid out in the line, and gives the command of the sentence: words in order, redirections nested in order, pipes and lists to the right |
| ShellGrammar.ParsesSentence | sh.c:328-442 | every sentence parses into its command |
| ShellGrammar.SentenceParsed | sh.c:328-442 | a line that parses is a sentence, and its command is the sentence's |
| ShellGrammar.SimpleLine | sh.c:416-442 | words and redirections in any order, `>>` included: the exec of the words, wrapped in the redirections in order with their modes |
| ShellGrammar.LaidTerms | sh.c:266-308 | gettoken cuts a line into the tokens it is laid out in |
| ShellGrammar.Lays | sh.c:266-308 | and every line is laid out in tokens |
| ShellGrammar.WrapIs | sh.c:375-397 | the first redirection is the innermost |
| ShellGrammar.PanicReason | sh.c:328-442 | every panic has its reason in the line: an operator without a file, a block that is not closed, a word too many, a misplaced parenthesis, or something behind the line |
| ShellPrint.PrintParse | sh.c:345-446 | a printed command parses to itself wherever it stands in a line |
| ShellPrint.RoundTrip | sh.c:328-446 | parsing the fully parenthesised form of a command tree gives the tree back |
| ShellWords.LineWords | sh.c:345-446 | whatever the line, every pair of bounds stored is a whole word of it |
| ShellWords.Nulterminate | sh.c:450-493 | exactly the ends of the command's words become NUL |
| ShellWords.WordString | sh.c:450-493 | reading from anywhere in a terminated word stops exactly at its end |
| ShellWords.WordsAreStrings | sh.c:450-493 | afterwards the C string at every argument and file name is exactly its word |
| ShellCode.Parser.NextToken | sh.c:266-308 | gettoken's loops find the token of the grammar |
| ShellCode.Parser.LookAhead | sh.c:311-320 | peek skips blanks and tests the next character |
| ShellCode.Parser.RedirList | sh.c:375-397 | the loop collects the redirections or reports the missing file |
| ShellCode.Parser.ExecCmd | sh.c:416-446 | the words and redirections of a simple command, or the panic |
| ShellCode.Parser.ArgList | sh.c:429-445 | the loop gives the arguments and redirections of the grammar, or its panic |
| ShellCode.Parser.BlockCmd | sh.c:400-413 | a parenthesised command with its redirections, or the panic |
| ShellCode.Parser.PipeCmd | sh.c:362-372 | right-nested pipes |
| ShellCode.Parser.BackList | sh.c:350-353 | the loop wraps one background command for each '&' |
| ShellCode.Parser.LineCmd | sh.c:345-359 | background and lists |
| ShellCode.Parser.WholeCmd | sh.c:334-340 | the whole line, or the panic for what is left over |
| ShellCode.Parsecmd | sh.c:328-342 | the command of the whole line, its words terminated in place, or the panic |
| Grep.Match | grep.c:73-82 | true exactly when some substring, or with '^' some beginning, is in the pattern's language |
| Grep.MatchHere | grep.c:85-96 | true exactly when some beginning of the text is |
| Grep.MatchStar | grep.c:99-106 | shortest first, and it misses no match |
| Grep.HereStar | grep.c:99-106 | a starred character matches any run of it, in the language as in the code |
| Grep.HereOne | grep.c:93-95 | a single character or '.' matches one character |
| Grep.HereEnd | grep.c:91-92 | a final '$' matches the end of the text |
| Grep.PlainIsSubstring | grep.c:72-82 | a pattern without special characters matches exactly the texts it occurs in |
| Grep.PlainAnchored | grep.c:75-92 | after '^', exactly the texts that begin with it, and between '^' and '$' only itself |
| Grep.DotIsAny | grep.c:93-94 | '.' before any pattern that does not star it matches one character, whichever it is, and then what the pattern does |
| Grep.AcceptsHead | grep.c:72-106 | a string in the language of a sequence of items splits into what the first takes and the rest |

## Left out

- Deadlock freedom and fairness: only safety is stated.
- Liveness: it is proved that a sleeper has reason to sleep and that someone is there to wake it, not that it is ever scheduled.
- Select and everything that polls a pipe without its lock; `wakeupselect` does nothing here.
- LogProtocol.CrashSafety: assumes that what is logged fits the log on disk or fills every buffer; `LogFits` and `SafeExactly` say when it does.
- FsCrash.CallsSurvive: the stores of one call are logged before those of the next, although operations may overlap; calls that interleave their stores under inode locks are not modelled.
- LogCode.Log.Commit: the buffers other processes hold stay the same while it goes on, and none of them is of the log or of a logged block; bread would wait for those.
- LogCode.Log.Transfer: is not about blocks another process holds, for the same reason.
- LogCode.Log.MoveOne: likewise.
- LogCode.Log.WriteLog: likewise.
- LogCode.Log.InstallTrans: likewise.
- Panics that report misuse of an interface (releasing a buffer one does not hold, init exiting, freeing a page twice) are preconditions.
- Running out of log or buffers in `FsCode`, where one bread, change, log_write and brelse of a block is one assignment to it and one entry in the history of stores; in `FsCrash` such a run stops before that store.
- Devices other than disk 1, and blocks past its end: iderw's panics for them are preconditions.
- Device files in readi and writei: the model says only that the call goes to the device.
- Directory entries and link counts together: namex reads an arbitrary tree, which may be a different one at every step, and whoever has an inode locked may set its link count to anything.
- The panic "ilock: no type" (fs.c:296-297): an inode that is free on disk cannot be loaded in the model.
- AllocCode.Allocator.Malloc: leaves out requests above 2^31 - 16 bytes that do not fit and for which sbrk grants memory, because it is then asked for a negative or wrapped number; `SbrkExactly` is the exact limit.
- Sizes of C types in process numbers: nextpid does not wrap.
- User memory, registers, files and the working directory in fork and exit.
- setupkvm, copyuvm and loaduvm: their error paths do not return every page.
- VmCode.Machine.Mappages: user mappings are of one page, as every caller makes them.
- The entropy events recorded by kalloc and kfree.
- CTR mode, SHA-256, the random number generator and the entropy pools.
- Running commands in the shell, and grep's reading of files.
- Hardware, assembly, boot, console, and the other user programs.
