# xv6 variants, verified

A Dafny model of the parts of two xv6 variants (`project1`, `project3`) that carry hard
invariants, with proofs about all inputs, all runs and all crash points. Code that updates
state in place is modelled by classes whose methods are proved against functions on the
abstract state; protocols are state machines whose invariants are proved over every run.

| files | what they model |
|---|---|
| `Words`, `BlockTree`, `FileBytes`, `WriteSpace`, `Teardown`, `KernelFs` | project3 files: the pointer tree with a double and a triple indirect block, the flat byte files `readi`, `writei` and `itrunc` make of it, and how many blocks a write takes |
| `ImageSpace`, `Mkfs`, `ImageRoundTrip` | the image builder, how many blocks files take, and that the kernel reads what was built |
| `CrashLog`, `LogDevice` | the write-ahead log on disk: crashes anywhere in commit and recovery |
| `GroupLog`, `GroupCrash` | project1's log: reservation of concurrent calls; runs over its disk with power failures |
| `DeferredLog`, `DeferredCrash` | project3's log, which commits at `sync` or at a threshold; runs over its disk |
| `BufferRing`, `BufferCache` | the buffer cache: LRU ring, reference counts, coherence |
| `FileWrite` | how many blocks one operation of project1's `filewrite` logs |
| `Umalloc` | the user-level allocator |
| `PageTables`, `FreeFrames`, `FrameCount`, `Vm` | page tables, the frame allocator, and how many frames operations take |
| `Mlfq`, `MlfqRuns`, `MlfqForks`, `MlfqNodes`, `MlfqKernel` | project1's scheduler: the rules on sequences, all runs of them, `fork` in its steps, the linked queues, and the code |
| `SleepLock` | sleep locks over `sleep` and `wakeup`, step by step |
| `ShellGrammar`, `ShellLanguage`, `ShellLaws`, `ShellStrings`, `ShellParser` | the shell's parser, the language it accepts, its tokens, and the C strings it leaves |
| `Grep` | the regular expression matcher |
| `Lists`, `Options` | shared helpers |

Where the code does not do what one would expect of it, the code is modelled as it is and
the exact condition is proved: when `log_write` can panic (`GroupLog.AllowanceIsSafe`,
`GroupLog.AbsorbedWriteCanPanic`, `DeferredLog.OverflowExactly`; mkfs makes the log region
LOGSIZE blocks, header included), when `begin_op` makes a call wait that could do no harm
(`GroupLog.WaitsExactly`), when the root directory fix of mkfs makes a hole
(`Mkfs.RoundedUp`, `ImageRoundTrip.BuildBootRead`), when `filewrite` uses up its reservation
(`FileWrite.BoundExactly`), when `statepop` leaves wrong flags or follows a null pointer
(`Mlfq.SweepExactly`, `MlfqForks.AllocExactly`), how a timer interrupt jams the scheduler lock
(`MlfqRuns.JammedStays`), when `malloc`'s 32-bit sizes wrap (`Umalloc.RequestExactly`), and how
a client that does not mark its changes loses them (`BufferCache.UnmarkedIsLost`).

Assumptions: one processor in the scheduler model; block writes are atomic; calls log blocks
outside the log region only (`GroupCrash.AtHome`, `DeferredCrash.AtHome`); sections under a
spin lock are atomic steps (except in `SleepLock`, where every lock operation is a step); the
allocator's `base` lies below the heap and other users of `sbrk` keep multiples of 8 bytes.
`dafny verify dfyconfig.toml` checks everything.

## Model

| member | source | states |
|---|---|---|
| Words.WordBytes | xv6-public/project3/fs.c:393-408 | a word is stored lowest byte first: one below 256 is that byte and three zeros |
| BlockTree.PosOf | xv6-public/project3/fs.c:373-450 | file block `bn` belongs to exactly one data position: converting it back gives `bn` |
| BlockTree.BlockNoInverse | xv6-public/project3/fs.c:373-450 | with `PosOf`: a bijection between the block numbers below MAXFILE and the data positions over direct, double and triple regions |
| BlockTree.PointersDistinct | xv6-public/project3/fs.c:373-450 | in a separated image all non-null pointers of all inodes, at every level, are pairwise distinct and outside the metadata |
| BlockTree.AttachWordAt | xv6-public/project3/fs.c:387-446 | storing a fresh zeroed block in a table entry changes that one pointer and no other |
| BlockTree.AttachWord | xv6-public/project3/fs.c:387-446 | it keeps the tree separated, every mapping, and every data block |
| BlockTree.AttachRootAt | xv6-public/project3/fs.c:379-391 | the same for a slot of the inode: one pointer changes |
| BlockTree.AttachRoot | xv6-public/project3/fs.c:379-391 | and the tree stays separated, nothing mapped moves |
| BlockTree.GrownThenGrown | xv6-public/project3/fs.c:373-450 | growing a path step by step is growing the path |
| BlockTree.SameTablesAt | xv6-public/project3/fs.c:373-450 | the pointers of a file depend only on its inode and its own tables |
| FileBytes.ContentsInBlock | xv6-public/project3/fs.c:573-578 | a stretch inside one block is the stretch of the flat file |
| FileBytes.GrownBytes | xv6-public/project3/fs.c:373-450 | resolving a block changes no byte of any file |
| FileBytes.StoredBytes | xv6-public/project3/fs.c:604 | copying bytes into a data block changes exactly those bytes of that file and no byte of another |
| FileBytes.WriteStep | xv6-public/project3/fs.c:601-607 | one round of `writei` extends what has been written, bytes and mappings, by the chunk |
| FileBytes.WriteDone | xv6-public/project3/fs.c:609-613 | after the size is set the file is the splice, no file has a hole, the other files are unchanged |
| FileBytes.GrownStored | xv6-public/project3/fs.c:601-607 | resolve and copy together write those bytes only and map at most that block |
| FileBytes.TornDownBytes | xv6-public/project3/fs.c:458-538 | removing one file leaves the others whole, byte for byte |
| KernelFs.FileSystem.Balloc | xv6-public/project3/fs.c:56-78 | returns a free block, marked used and zeroed, or panics exactly when none is free |
| KernelFs.FileSystem.Bfree | xv6-public/project3/fs.c:81-95 | clears the bit, panics exactly when it is clear already |
| KernelFs.FileSystem.SlotBlock | xv6-public/project3/fs.c:379-391 | resolves or allocates an inode slot, keeping the tree separated and every mapping; panics exactly when it has to allocate and no block is free |
| KernelFs.FileSystem.EntryBlock | xv6-public/project3/fs.c:393-408 | the same for an entry of a table block |
| KernelFs.FileSystem.DoubleBlock | xv6-public/project3/fs.c:384-412 | the double-indirect branch reaches the position of its block |
| KernelFs.FileSystem.TripleBlock | xv6-public/project3/fs.c:414-446 | the triple-indirect branch reaches the position of its block |
| KernelFs.FileSystem.Bmap | xv6-public/project3/fs.c:373-450 | returns the block at the position of `bn`; existing mappings stay, new blocks are on the path only, one for each null pointer there; panics exactly when the free blocks are fewer than these or `bn` is out of range |
| KernelFs.FileSystem.Readi | xv6-public/project3/fs.c:555-580 | returns exactly the requested bytes of the flat file, shortened at its end, or fails; it allocates and changes nothing |
| KernelFs.FileSystem.ReadChunk | xv6-public/project3/fs.c:573-578 | one round of the loop: the bytes of one block, without allocating |
| KernelFs.FileSystem.WriteChunk | xv6-public/project3/fs.c:601-607 | one round: those bytes of that file, nothing else, and no new block in the inode if it was mapped; panics exactly when the free blocks are fewer than the null pointers on the path |
| KernelFs.FileSystem.WriteLoop | xv6-public/project3/fs.c:601-607 | the loop writes all of `src`; if it changed the inode it also passed the old end of file; panics exactly when the free blocks are fewer than the stretch lacks |
| KernelFs.FileSystem.FinishWrite | xv6-public/project3/fs.c:609-613 | the on-disk inodes equal the in-memory ones again: allocations inside `writei` are always persisted |
| KernelFs.FileSystem.Writei | xv6-public/project3/fs.c:584-614 | fails exactly for `off > size` or beyond MAXFILE, then without effect; panics exactly when the free blocks are fewer than the null pointers on the paths to the blocks of the stretch, so never where all are mapped; else takes exactly these, the file is spliced, the other files and the no-hole invariant are kept |
| WriteSpace.StretchStep | xv6-public/project3/fs.c:601-607 | resolving the first block of a stretch takes its null pointers; those of the rest, counted once each, remain |
| WriteSpace.LackingStep | xv6-public/project3/fs.c:601-607 | so one round of `writei` takes its part of the blocks the whole write lacks |
| WriteSpace.OverwriteFits | xv6-public/project3/fs.c:601-607 | overwriting part of a file lacks no block, so it goes through on a full disk |
| KernelFs.FileSystem.FreeData | xv6-public/project3/fs.c:478-484 | frees exactly the blocks of one table; `bfree` never sees a free block |
| KernelFs.FileSystem.FreeTables | xv6-public/project3/fs.c:471-493 | frees exactly what lies below a two-level table |
| KernelFs.FileSystem.FreeDoubleTables | xv6-public/project3/fs.c:501-531 | frees exactly what lies below the triple-indirect block |
| KernelFs.FileSystem.FreeDirect | xv6-public/project3/fs.c:465-470 | frees exactly the direct blocks |
| KernelFs.FileSystem.FreeDoubleIndirect | xv6-public/project3/fs.c:471-499 | and the double-indirect tree |
| KernelFs.FileSystem.FreeTripleIndirect | xv6-public/project3/fs.c:501-534 | and the triple-indirect tree |
| KernelFs.FileSystem.Itrunc | xv6-public/project3/fs.c:458-538 | clears the bit of exactly the blocks reachable from the inode, each once; all other bits, blocks and files stay |
| Teardown.ReachableExact | xv6-public/project3/fs.c:458-538 | the freed set is exactly the blocks some pointer of the file refers to, at any level |
| Teardown.EntriesNext | xv6-public/project3/fs.c:478-531 | one more table entry adds its block and what lies below, all new |
| Teardown.SlotsNext | xv6-public/project3/fs.c:465-534 | the same for inode slots |
| Teardown.SlotsAll | xv6-public/project3/fs.c:465-534 | all slots together are all blocks of the file |
| Teardown.TornDownSeparated | xv6-public/project3/fs.c:458-538 | the tree stays separated, only pointers of the removed file become null |
| Mkfs.Builder.constructor | xv6-public/project3/mkfs.c:68-120 | an empty image, next block right after the metadata |
| Mkfs.Builder.SlotBlock | xv6-public/project3/mkfs.c:284-298 | gives the next block to a null slot; separation and the block counter are kept; stops exactly when the slot is null and the image full |
| Mkfs.Builder.EntryBlock | xv6-public/project3/mkfs.c:299-338 | the same for an entry of a table sector on the image |
| Mkfs.Builder.Resolve | xv6-public/project3/mkfs.c:283-340 | finds the sector at the position the kernel uses; takes one block for each null pointer on the path and stops exactly when the image has not that many |
| Mkfs.Builder.ResolveDouble | xv6-public/project3/mkfs.c:291-310 | its double-indirect branch |
| Mkfs.Builder.ResolveTriple | xv6-public/project3/mkfs.c:311-340 | its triple-indirect branch |
| Mkfs.Builder.AppendChunk | xv6-public/project3/mkfs.c:276-348 | one round: those bytes are written, no other byte of any file; stops exactly when the image has not the blocks the chunk takes |
| Mkfs.Builder.Iappend | xv6-public/project3/mkfs.c:256-352 | the flat contents grow by exactly the bytes; other files stay; all referenced blocks are distinct and in `[nmeta, freeblock)`; stops exactly when the file would exceed MAXFILE blocks or the image has not the blocks for it |
| Mkfs.Builder.FinishAppend | xv6-public/project3/mkfs.c:349-351 | sets the size: each file then has exactly the blocks its size needs, and zeros behind its end |
| Mkfs.Builder.Balloc | xv6-public/project3/mkfs.c:237-253 | sets exactly the first `n` bits, which are the allocated blocks |
| Mkfs.Builder.FixRoot | xv6-public/project3/mkfs.c:158-163 | the size fix leaves the image without holes exactly when the directory did not end on a block boundary, and then the directory grows by zeros |
| Mkfs.RoundedUp | xv6-public/project3/mkfs.c:158-163 | rounding the size up makes a hole if and only if it is a multiple of BSIZE already |
| KernelFs.FileSystem.Mount | xv6-public/project3/mkfs.c:237-352 | the image the builder leaves meets the kernel's invariant, bitmap included |
| ImageRoundTrip.Build | xv6-public/project3/mkfs.c:128-156 | any appends to any files: every file is the concatenation of what was appended, or the builder stops because a file or the image gets too big |
| ImageRoundTrip.BuildBootRead | xv6-public/project3/mkfs.c:128-168 | appends, root size fix, bitmap, then the kernel's `readi`: the builder stops if and only if a file exceeds MAXFILE blocks, the image has not the blocks all files need, or the bitmap does not fit one block; the fix opens a hole if and only if the root ends on a block boundary; else the file reads as what was appended, the root directory with zeros behind |
| ImageSpace.TreeNext | xv6-public/project3/mkfs.c:276-340 | one block more takes itself and each table it is the first in; the closed formula counts them all |
| ImageSpace.FirstBelow | xv6-public/project3/mkfs.c:276-340 | a table lies on the path to the first block that is reached through it |
| ImageSpace.ExactNext | xv6-public/project3/mkfs.c:276-340 | resolving the next block sets the pointers on its path and no other |
| ImageSpace.MissingNext | xv6-public/project3/mkfs.c:276-340 | the null pointers on the path to the next block are as many as the formula says |
| ImageRoundTrip.AppendedNext | xv6-public/project3/mkfs.c:256-352 | one more append adds its bytes to its file only |
| CrashLog.HeadRoundTrip | xv6-public/project1/log.c:85-112 | reading back a written header gives the count and the block numbers |
| CrashLog.UpdatedAt | xv6-public/project1/log.c:69-82 | installing puts every logged block home and no other |
| CrashLog.CommitLayout | xv6-public/project1/log.c:176-202 | the writes of `commit`, in order, and where each goes |
| CrashLog.CommitStep | xv6-public/project1/log.c:176-202 | one more write of a commit takes the disk to the next point of it |
| CrashLog.CommitReaches | xv6-public/project1/log.c:176-202 | so the first `k` writes take it to point `k` |
| CrashLog.CommitStates | xv6-public/project1/log.c:176-202 | before the header write the old blocks and an empty log; then the transaction is pending; after the last write it is home |
| CrashLog.CleanRecovers | xv6-public/project1/log.c:115-121 | recovery of a disk without transaction, cut anywhere, keeps it |
| CrashLog.RecoveryReaches | xv6-public/project1/log.c:115-121 | the first `k` writes of a recovery take a pending disk to point `k` of it |
| CrashLog.PendingRecovers | xv6-public/project1/log.c:115-121 | recovery cut short leaves the transaction pending, complete it has brought it home |
| CrashLog.LeadsThere | xv6-public/project1/log.c:115-121 | any number of interrupted recoveries and then one that finishes reach the same home blocks |
| CrashLog.CrashAtomicity | xv6-public/project1/log.c:68-122 | every crash point of `commit`, any further crashes in recovery: all or none of the blocks, switching exactly at the non-empty header write |
| LogDevice.Device.Bwrite | xv6-public/project1/bio.c:105-114 | a block write happens whole, or not at all when the power is gone |
| LogDevice.Device.WriteLog | xv6-public/project1/log.c:176-189 | issues exactly the log writes, as far as the power lasts |
| LogDevice.Device.WriteHead | xv6-public/project1/log.c:100-112 | writes the header of the current transaction |
| LogDevice.Device.ReadHead | xv6-public/project1/log.c:84-96 | reads the transaction in the header back |
| LogDevice.Device.InstallTrans | xv6-public/project1/log.c:68-82 | copies the log blocks home, in order |
| LogDevice.Device.InstallAndClear | xv6-public/project1/log.c:196-201 | install, then the empty header |
| LogDevice.Device.RecoverFromLog | xv6-public/project1/log.c:114-121 | issues exactly the writes of a recovery |
| LogDevice.Device.LogTransaction | xv6-public/project1/log.c:191-196 | the half of `commit` up to the commit point |
| LogDevice.Device.Commit | xv6-public/project1/log.c:191-202 | issues exactly the writes of a commit, as far as the power lasts |
| LogDevice.CommitPhases | xv6-public/project1/log.c:191-202 | the phases one after the other are the whole |
| LogDevice.Restart | xv6-public/project1/log.c:114-121 | a restart recovers as far as the power lasts, and completely when it lasts for all writes |
| LogDevice.CommitCrashRecover | xv6-public/project1/log.c:114-202 | `commit` with power for some writes, then restarts cut short anywhere, then one that is not: the transaction is home as a whole or not at all |
| GroupLog.UnspentUpdate | xv6-public/project1/log.c:125-142 | reservations change by what a call has used |
| GroupLog.StepKeepsValid | xv6-public/project1/log.c:125-233 | every step of any interleaving keeps the log invariant |
| GroupLog.ReachableValid | xv6-public/project1/log.c:125-233 | in every reachable state `lh.n` plus unspent reservations is at most LOGSIZE, logged numbers are distinct and in the region, only whole calls are committed, and with no call active and no commit under way everything is |
| GroupLog.EveryWriteLogged | xv6-public/project1/log.c:213-233 | however a run goes on, each of its log writes stays in the history, in its turn and under the call that made it |
| GroupLog.ActiveUntilEnd | xv6-public/project1/log.c:125-173 | a call is active from its `begin_op` to its own `end_op`, whatever others do |
| GroupLog.UseAll | xv6-public/project1/log.c:213-233 | the active calls can use their reservations so that the log takes all of them |
| GroupLog.WaitsExactly | xv6-public/project1/log.c:132-134 | the test of `begin_op` lets a call in only if no use of all reservations can overflow the log; it is exact while the active calls have logged nothing, and too strict by just what they have logged |
| GroupLog.WaitsNeedlessly | xv6-public/project1/log.c:132-134 | a reachable state in which a call has to wait that could do no harm |
| GroupLog.Fill | xv6-public/project1/log.c:213-233 | a run that logs any number of blocks up to the limits |
| GroupLog.AllowanceIsSafe | xv6-public/project1/log.c:213-233 | a call with allowance left never panics in `log_write` if and only if the region has more than LOGSIZE blocks |
| GroupLog.AbsorbedWriteCanPanic | xv6-public/project1/log.c:217-224 | for every larger region there is a reachable state in which re-logging an already logged block panics |
| GroupLog.EffectUntouched | xv6-public/project1/log.c:68-82 | blocks not written since the commit keep their contents |
| GroupLog.InstallCoversAll | xv6-public/project1/log.c:191-202 | installing the log gives the effect of everything written since the last commit |
| GroupLog.CommitCrash | xv6-public/project1/log.c:191-202 | a crash after any number of writes of a commit, and any in recovery, leaves the effect of the history up to the last commit, or of all of it past the header write |
| GroupLog.CommitWhole | xv6-public/project1/log.c:191-202 | a commit that runs to the end leaves an empty log and the effect of the whole history |
| GroupCrash.MoveKeeps | xv6-public/project1/log.c:68-233 | every step keeps log and disk together: of a call, of a commit, a power failure with recovery |
| GroupCrash.CrashIsolation | xv6-public/project1/log.c:114-233 | in every state of every run, from a clean disk and over any earlier power failures: a failure now, and any during recovery, leave the effect of a set of whole calls |
| GroupCrash.EndIsDurable | xv6-public/project1/log.c:144-202 | once a commit is over, every later crash of every run keeps all calls up to it |
| GroupCrash.CommitGoesOn | xv6-public/project1/log.c:191-202 | a commit never gets stuck |
| GroupCrash.QuietIsHome | xv6-public/project1/log.c:144-202 | in every run over the disk: with no call active and no commit under way the disk has the effect of the whole history |
| GroupLog.Log.constructor | xv6-public/project1/log.c:53-66 | an empty log |
| GroupLog.Log.BeginOp | xv6-public/project1/log.c:125-142 | admits a call exactly when its reservation fits and no commit runs |
| GroupLog.Log.EndOp | xv6-public/project1/log.c:144-173 | the last call out goes on to commit, no other |
| GroupLog.Log.CommitDone | xv6-public/project1/log.c:163-172 | the commit is over |
| GroupLog.Log.Append | xv6-public/project1/log.c:213-233 | logs the block once, or panics as the code does |
| DeferredLog.StepKeepsSound | xv6-public/project3/log.c:127-272 | every event keeps the invariant of the deferred log |
| DeferredLog.EveryRun | xv6-public/project3/log.c:127-272 | in every run the log has at most NBUF-1+MAXOPBLOCKS blocks, so calls never wait, `log_write` never panics, and commits fall on call boundaries |
| DeferredLog.EveryWriteLogged | xv6-public/project3/log.c:177-255 | however a run goes on, each log write stays in the history, in its turn and under the number of its call, and so does the end of each call |
| DeferredLog.FillTo | xv6-public/project3/log.c:127-255 | a run that reaches the bound |
| DeferredLog.OverflowExactly | xv6-public/project3/log.c:235-255 | no run panics if and only if the region is larger than NBUF+MAXOPBLOCKS |
| DeferredCrash.MoveKeeps | xv6-public/project3/log.c:109-272 | every step keeps log and disk together: of a call, of a commit, a power failure with recovery |
| DeferredCrash.EndsByLast | xv6-public/project3/log.c:197-224 | the calls that survive a failure are a prefix of all calls |
| DeferredCrash.CrashKeepsPrefix | xv6-public/project3/log.c:119-272 | in every state of every run, from a clean disk and over any earlier power failures: a failure now, and any during recovery, leave the effect of a prefix of the calls, up to the last commit or past the one under way |
| DeferredCrash.SyncIsDurable | xv6-public/project3/log.c:257-272 | when `sync` returns, the history is that of the finished calls, and every later crash of every run keeps all of it |
| DeferredCrash.CommitGoesOn | xv6-public/project3/log.c:214-224 | a commit never gets stuck |
| DeferredLog.Log.constructor | xv6-public/project3/log.c:56-69 | an empty log |
| DeferredLog.Log.LimitCheck | xv6-public/project3/log.c:127-143 | commits at the threshold and only there |
| DeferredLog.Log.Begin | xv6-public/project3/log.c:147-173 | never waits; commits first when the threshold is reached |
| DeferredLog.Log.End | xv6-public/project3/log.c:177-191 | ends the call without a commit |
| DeferredLog.Log.LogWrite | xv6-public/project3/log.c:235-255 | absorbs or appends the block; never panics |
| DeferredLog.Log.SysSync | xv6-public/project3/log.c:257-272 | commits everything and returns how many blocks it wrote |
| BufferRing.UnlinkedRing | xv6-public/project3/bio.c:135-136 | taking a buffer out leaves the rest a ring in the same order |
| BufferRing.LinkedRing | xv6-public/project3/bio.c:137-140 | putting it behind the head makes it the first of the ring |
| BufferCache.HitKeeps | xv6-public/project3/bio.c:69-75 | another reference keeps the cache sound |
| BufferCache.RecycledKeeps | xv6-public/project3/bio.c:81-90 | giving an unused buffer away loses nothing and keeps blocks unique |
| BufferCache.LockKeeps | xv6-public/project3/sleeplock.c:22-42 | taking and giving back the sleep lock keeps the reference counts |
| BufferCache.FilledKeeps | xv6-public/project3/memide.c:38-60 | a block no buffer is ahead of has its latest contents on disk |
| BufferCache.EditedKeeps | xv6-public/project3/log.c:226-234 | the holder's changes become the latest contents |
| BufferCache.MarkedKeeps | xv6-public/project3/log.c:253 | pinning keeps the cache coherent |
| BufferCache.WrittenKeeps | xv6-public/project3/memide.c:54-59 | writing through makes the disk catch up |
| BufferCache.DroppedKeeps | xv6-public/project3/bio.c:131-143 | dropping the last reference moves the buffer to the front and keeps everything else |
| BufferCache.FrontedRing | xv6-public/project3/bio.c:134-141 | that move keeps the ring a permutation of all buffers |
| BufferCache.UnmarkedIsLost | xv6-public/project3/bio.c:78-91 | without `log_write`/`bwrite` before `brelse` a change can be lost: neither a buffer nor the disk has it |
| BufferCache.ReadAndEdit | xv6-public/project3/bio.c:78-91 | a client gets into that situation by reading a block and changing it |
| BufferCache.Cache.constructor | xv6-public/project3/bio.c:38-56 | all buffers on the ring, none in use |
| BufferCache.Cache.Bget | xv6-public/project3/bio.c:61-94 | the buffer that has the block; else the least recently used of those neither referenced nor dirty; panics exactly when there is none |
| BufferCache.Cache.Lock | xv6-public/project3/bio.c:73 | a waiting reference becomes the holder |
| BufferCache.Cache.Iderw | xv6-public/project3/memide.c:38-60 | writes a dirty buffer, fills an invalid one |
| BufferCache.Cache.ReadIn | xv6-public/project3/bio.c:96-107 | whatever other processes did, the data are what the block was last given |
| BufferCache.Cache.Edit | xv6-public/project3/log.c:226-234 | what a client does to a block it has locked |
| BufferCache.Cache.Pin | xv6-public/project3/log.c:253 | the buffer cannot be recycled from now on |
| BufferCache.Cache.Bwrite | xv6-public/project3/bio.c:109-119 | the disk has the contents of the buffer |
| BufferCache.Cache.Unlock | xv6-public/project3/bio.c:126-129 | the lock is given back, the reference kept |
| BufferCache.Cache.Drop | xv6-public/project3/bio.c:131-143 | the reference is dropped; the last one makes the buffer the most recently used |
| Umalloc.StopsExactly | xv6-public/project3/umalloc.c:30-32 | the search of `free` stops exactly at the member the block goes behind |
| Umalloc.InsertedPartition | xv6-public/project3/umalloc.c:33-43 | linking a block in keeps free and live blocks disjoint and covering |
| Umalloc.MergedLinked | xv6-public/project3/umalloc.c:33-41 | merging keeps the list circular and ordered |
| Umalloc.MergedPartition | xv6-public/project3/umalloc.c:33-41 | merging loses no unit |
| Umalloc.JoinStep | xv6-public/project3/umalloc.c:33-41 | merging with the next block, if they touch, keeps the invariants |
| Umalloc.FreedSound | xv6-public/project3/umalloc.c:24-44 | `free` keeps the list circular, ordered, single-wrap and coalesced, the partition of the units, and every other live block |
| Umalloc.ClientWrites | xv6-public/project3/umalloc.c:24-90 | clients may write anything but headers |
| Umalloc.RequestExactly | xv6-public/project3/umalloc.c:46-69 | the request is rounded up and passed to `sbrk` in full exactly for up to 0x7FFFFFF0 bytes; beyond that 32-bit sizes wrap |
| Umalloc.TakenWholeSound | xv6-public/project3/umalloc.c:75-83 | an exact fit leaves the list |
| Umalloc.TakenTailSound | xv6-public/project3/umalloc.c:77-81 | a larger block gives its tail; the list stays coalesced |
| Umalloc.GrownSound | xv6-public/project3/umalloc.c:55-59 | units from `sbrk` form one more block |
| Umalloc.AheadNext | xv6-public/project3/umalloc.c:30-32 | a step along the list leaves one member behind: the search loops end |
| Umalloc.Allocator.constructor | xv6-public/project3/umalloc.c:21-22 | nothing allocated yet |
| Umalloc.Allocator.Sbrk | xv6-public/project3/sysproc.c:45-57 | gives the end of the data segment or refuses; what was asked and given is recorded |
| Umalloc.Allocator.Search | xv6-public/project3/umalloc.c:30-32 | terminates, at the member the block goes behind |
| Umalloc.Allocator.Relink | xv6-public/project3/umalloc.c:33-42 | the pointer updates of `free` insert and merge |
| Umalloc.Allocator.Free | xv6-public/project3/umalloc.c:24-44 | the block is no longer live, all others are untouched, the heap is sound |
| Umalloc.Allocator.Morecore | xv6-public/project3/umalloc.c:46-61 | asks `sbrk` once, for the units wanted but at least 4096; fails exactly if `sbrk` does, then without effect, or gains exactly the units it gave |
| Umalloc.Allocator.Take | xv6-public/project3/umalloc.c:75-84 | serves the request from a fitting member |
| Umalloc.Allocator.Malloc | xv6-public/project3/umalloc.c:63-90 | terminates; where a block of the list fits it gives one without asking `sbrk`, else it asks once, for max(4096, units), and fails if and only if `sbrk` refuses; the new block has enough units, disjoint from all live ones; live blocks are untouched, no unit is lost |
| FreeFrames.Popped | xv6-public/project3/kalloc.c:82-95 | taking the head leaves a free list of exactly the free frames |
| FreeFrames.Pushed | xv6-public/project3/kalloc.c:59-77 | giving a frame back likewise |
| PageTables.AddTable | xv6-public/project3/vm.c:44-53 | a new page table changes no mapping of any address space; every directory entry present has the flags P, W and U |
| PageTables.UserAccess | xv6-public/project3/vm.c:48-52 | so what user code may do with a page rests with its table entry alone |
| PageTables.EntrySet | xv6-public/project3/vm.c:57-80 | setting an entry changes the mapping of that page of that address space only |
| PageTables.AddPage | xv6-public/project3/vm.c:57-80 | mapping a page: one mapping more, its frame owned by that page alone |
| PageTables.RemovePage | xv6-public/project3/vm.c:269-276 | unmapping: one mapping less |
| PageTables.AbandonKeeps | xv6-public/project3/vm.c:290-297 | an address space without user pages can be given up |
| PageTables.AddDir | xv6-public/project3/vm.c:124-126 | a zeroed frame is an empty address space |
| Vm.Memory.Kalloc | xv6-public/project3/kalloc.c:79-95 | a frame that was free, or 0 exactly when none is |
| Vm.Memory.Kfree | xv6-public/project3/kalloc.c:54-77 | the frame is free, the others as before |
| Vm.Memory.FreeRange | xv6-public/project3/kalloc.c:46-53 | frees exactly the frames of the range |
| Vm.Memory.WalkPgdir | xv6-public/project3/vm.c:32-55 | finds or makes the table without changing any mapping, for one frame exactly if it has to be made, with a directory entry that leaves access to the table; 0 exactly when there is none and none can be made |
| Vm.Memory.MapPage | xv6-public/project3/vm.c:57-80 | one page mapped, all other mappings of all address spaces unchanged; fails, without effect, only for lack of a frame for a table |
| Vm.Memory.MapPages | xv6-public/project3/vm.c:57-80 | a run of kernel pages is mapped to consecutive frames, exactly when there are frames for the tables it lacks |
| Vm.Memory.DeallocUvm | xv6-public/project3/vm.c:251-279 | exactly the pages in range are unmapped and freed, also across skipped tables; everything else stays |
| Vm.NoTable | xv6-public/project3/vm.c:267-268 | the skip of 1024 pages misses nothing |
| FrameCount.NeedBoth | xv6-public/project3/vm.c:32-80 | tables taken in two steps add up to the tables both need together |
| FrameCount.UpToShort | xv6-public/project3/vm.c:219-249 | where a page finds no frame, or none for its table, the whole range asked for more than was free |
| FrameCount.FreshPages | xv6-public/project3/vm.c:313-345 | what a new address space has taken: its directory, its pages, and each table once |
| Vm.Memory.AllocUvm | xv6-public/project3/vm.c:219-249 | the new pages are zeroed user pages on frames of their own; succeeds if and only if the free frames cover the pages and the tables they lack; on failure the mappings are as before and no frame is lost |
| Vm.FilledForUser | xv6-public/project3/vm.c:219-249 | user code can write every page it has mapped: directory and table entry both allow it |
| Vm.Undone | xv6-public/project3/vm.c:235-246 | what had been mapped before the failure is unmapped again |
| Vm.Memory.FreeVm | xv6-public/project3/vm.c:281-298 | every frame of the address space goes back exactly once, and no other |
| Vm.Memory.SetupKvm | xv6-public/project3/vm.c:117-136 | a new address space with exactly the kernel's mappings, if and only if there are frames for the directory and its tables; else everything restored |
| Vm.Memory.CopyUvm | xv6-public/project3/vm.c:313-345 | equal contents and flags on frames of its own, if and only if there are frames for the directory, all tables and all pages; on failure every frame has its owner back |
| Vm.CopiedForUser | xv6-public/project3/vm.c:313-345 | user code can read and write in the copy exactly what it can in the original |
| Vm.Unbuilt | xv6-public/project3/vm.c:342-344 | giving up a half-made copy restores everything |
| Mlfq.PicksFirst | xv6-public/project1/project1_mlfq.c:82-102 | `popproc` takes the first RUNNABLE process in queue order and then FIFO, and disturbs nothing else |
| Mlfq.PushKeeps | xv6-public/project1/project1_mlfq.c:169-207 | `push` keeps every process in one place and the flags exact |
| Mlfq.HeadPushKeeps | xv6-public/project1/project1_mlfq.c:209-245 | `headpush` likewise |
| Mlfq.PopKeeps | xv6-public/project1/project1_mlfq.c:39-80 | `pop` likewise |
| Mlfq.BoostGathers | xv6-public/project1/project1_mlfq.c:268-320 | L0 gets every queued process once, as new; the process holding the lock is first |
| Mlfq.BoostKeepsOrder | xv6-public/project1/project1_mlfq.c:282-306 | boosting keeps the queue order: of two processes the one ahead is ahead in L0 |
| Mlfq.BoostKeeps | xv6-public/project1/project1_mlfq.c:268-320 | boosting keeps the queue invariants |
| Mlfq.SweepExactly | xv6-public/project1/project1_mlfq.c:104-149 | `statepop` goes through with exact flags if and only if it has nothing to remove |
| Mlfq.SweepFails | xv6-public/project1/project1_mlfq.c:138-139 | if it removes anything, some process ends up flagged but not queued |
| Mlfq.RequeueKeeps | xv6-public/project1/proc.c:366-419 | a process that gives up the processor is queued with 1 to 2*level+4 ticks, unless zombie or lock holder |
| Mlfq.SettledEntered | xv6-public/project1/proc.c:346-424 | the scheduler up to the dispatch keeps the invariant |
| Mlfq.Demotes | xv6-public/project1/proc.c:373-378 | time used up on level 0 or 1: last of the next level, with 2*(level+1)+4 ticks |
| Mlfq.Promotes | xv6-public/project1/proc.c:373-378 | time used up on level 2: last of the queue of one step better priority, if there is one, with 8 ticks |
| Mlfq.StaysPut | xv6-public/project1/proc.c:379-398 | time left: first of L0 after a timer interrupt on level 2, else last of its own queue, with the time it has left |
| Mlfq.LockGivenUp | xv6-public/project1/proc.c:367-413 | a process that unlocks, or sleeps with the lock, is the first of L0 as new, and the lock is free |
| Mlfq.NotQueuedAgain | xv6-public/project1/proc.c:399-418 | a process that exits is not queued and leaves the lock; one that yields with the lock keeps it and its time |
| Mlfq.DispatchedKeeps | xv6-public/project1/proc.c:425-446 | the dispatch leaves a process running, or none runnable |
| MlfqRuns.StepKeeps | xv6-public/project1/proc.c:342-454 | every event keeps the scheduler invariant |
| MlfqRuns.TurnEnds | xv6-public/project1/proc.c:346-419 | every turn that ends by a timer interrupt, `yield` or `sleep` costs a tick; the last one leads to the next level, or one step up in priority; else the process stands where it did with the rest |
| MlfqRuns.ForkEnters | xv6-public/project1/project1_mlfq.c:256-266 | a new process is the last of L0 with four ticks |
| MlfqRuns.PriorityPlaces | xv6-public/project1/project1_other.c:27-32 | a priority that is set decides where the process goes when it comes to level 2 |
| MlfqRuns.WokenRuns | xv6-public/project1/proc.c:554-565 | a process that is woken while nobody can run gets the processor |
| MlfqRuns.LockTaken | xv6-public/project1/project1_schedulerLocker.c:33-38 | the lock, when it is free, is taken, and the ticks start over |
| MlfqRuns.UnlockRuns | xv6-public/project1/project1_schedulerLocker.c:53-83 | a holder that unlocks goes on running, as a new process, and the lock is free for the next |
| MlfqRuns.StepUnlockTick | xv6-public/project1/project1_schedulerLocker.c:54-83 | also a timer interrupt between the assignments of the unlock, or before its `yield`, at tick 100 too |
| MlfqRuns.StepLockTick | xv6-public/project1/project1_schedulerLocker.c:33-38 | also a timer interrupt after the first assignment of the lock |
| MlfqRuns.JammedReached | xv6-public/project1/project1_schedulerLocker.c:33-38 | a run in which that interrupt is the tick of the boost: `lockproc` is then set though nobody has the lock |
| MlfqRuns.JammedStays | xv6-public/project1/project1_schedulerLocker.c:33-38 | from then on nobody gets the lock, whatever happens, until the next boost or an interrupted call goes on |
| MlfqRuns.EveryRun | xv6-public/project1/proc.c:342-454 | after any events each live process runs or is in exactly one queue node, flags match, quanta and priorities are in range |
| MlfqRuns.RoomForAll | xv6-public/project1/project1_mlfq.c:179-188 | all queues together hold at most NPROC processes: `push` never finds a full queue, `boosting` never overruns its array |
| MlfqRuns.LockHolds | xv6-public/project1/project1_schedulerLocker.c:23-51 | the lock holder keeps the processor until it sleeps, exits, unlocks or tick 100, whatever else happens |
| MlfqRuns.BoostTick | xv6-public/project1/proc.c:356-365 | at tick 100 every process is in L0 as new, and a lock holder runs first |
| MlfqRuns.TicksCount | xv6-public/project1/trap.c:147-159 | ticks count timer interrupts only |
| MlfqRuns.BoostComes | xv6-public/project1/trap.c:147-159 | without a new lock, every queued process is back in L0 within 100 timer interrupts |
| MlfqForks.AllocExactly | xv6-public/project1/proc.c:77-103 | `allocproc` goes through with exact flags if and only if no process is unused or nobody queued is dead |
| MlfqForks.ClearFails | xv6-public/project1/project1_mlfq.c:153-164 | where somebody queued is dead `clearmlfq` crashes or leaves a process flagged and not queued |
| MlfqForks.AllocRuns | xv6-public/project1/proc.c:77-103 | where `fork` is one step, `allocproc` goes through |
| MlfqForks.FailedForkCrashes | xv6-public/project1/proc.c:188-209 | a `fork` that fails for lack of memory makes the next one follow a null pointer |
| MlfqForks.OverlapLosesProcess | xv6-public/project1/proc.c:188-233 | two overlapping calls of `fork`, with one timer interrupt between, lose a process: RUNNABLE, flagged, and in no queue |
| MlfqNodes.AppendedHolds | xv6-public/project1/project1_mlfq.c:189-204 | the linked push appends to the queue |
| MlfqNodes.PrependedHolds | xv6-public/project1/project1_mlfq.c:228-242 | the linked headpush prepends |
| MlfqNodes.UnlinkedHolds | xv6-public/project1/project1_mlfq.c:47-67 | unlinking head, tail or middle removes that element |
| MlfqNodes.FreeNode | xv6-public/project1/project1_mlfq.c:182-188 | with fewer than QUESIZE queued some node is free |
| MlfqKernel.Kernel.constructor | xv6-public/project1/proc.c:125-161 | one process in L0, nobody running |
| MlfqKernel.Kernel.FindFree | xv6-public/project1/project1_mlfq.c:179-188 | a free node, or QUESIZE exactly when all are used |
| MlfqKernel.Kernel.Push | xv6-public/project1/project1_mlfq.c:169-207 | does what `push` means on sequences; the panic is not reached |
| MlfqKernel.Kernel.HeadPush | xv6-public/project1/project1_mlfq.c:209-245 | does what `headpush` means |
| MlfqKernel.Kernel.Pop | xv6-public/project1/project1_mlfq.c:39-80 | removes the first RUNNABLE process of a queue, if any |
| MlfqKernel.Kernel.PopProc | xv6-public/project1/project1_mlfq.c:82-102 | the same over all queues in order |
| MlfqKernel.Kernel.StatePop | xv6-public/project1/project1_mlfq.c:104-149 | does what `Sweep` says, null dereference included |
| MlfqKernel.Kernel.ClearMlfq | xv6-public/project1/project1_mlfq.c:153-164 | `statepop` on every queue, failing where that follows a null pointer; with the queues in order it removes nothing |
| MlfqKernel.Kernel.Drain | xv6-public/project1/project1_mlfq.c:282-298 | empties one queue in order |
| MlfqKernel.Kernel.Gather | xv6-public/project1/project1_mlfq.c:282-298 | empties all queues in order |
| MlfqKernel.Kernel.Refill | xv6-public/project1/project1_mlfq.c:300-306 | all but the lock holder go back into L0 |
| MlfqKernel.Kernel.Boosting | xv6-public/project1/project1_mlfq.c:268-320 | does what boosting means on sequences |
| MlfqKernel.Kernel.Requeue | xv6-public/project1/proc.c:355-419 | every branch for the process that gave up the processor |
| MlfqKernel.Kernel.Settle | xv6-public/project1/proc.c:346-424 | the round up to the dispatch |
| MlfqKernel.Kernel.Dispatch | xv6-public/project1/proc.c:425-446 | the dispatch |
| MlfqKernel.Kernel.Scheduler | xv6-public/project1/proc.c:332-455 | one round of the scheduler loop |
| MlfqKernel.Kernel.TimerInterrupt | xv6-public/project1/trap.c:147-159 | the timer tick, with its yield |
| MlfqKernel.Kernel.Yield | xv6-public/project1/proc.c:483-491 | a yield |
| MlfqKernel.Kernel.Sleep | xv6-public/project1/proc.c:514-551 | going to sleep, as the scheduler sees it |
| MlfqKernel.Kernel.Exit | xv6-public/project1/proc.c:232-276 | exiting, as the scheduler sees it |
| MlfqKernel.Kernel.SchedulerLock | xv6-public/project1/project1_schedulerLocker.c:23-51 | takes the lock if it is free, or is interrupted after its first assignment; a wrong password exits |
| MlfqKernel.Kernel.FinishLock | xv6-public/project1/project1_schedulerLocker.c:36-37 | the rest of the lock |
| MlfqKernel.Kernel.SchedulerUnlock | xv6-public/project1/project1_schedulerLocker.c:53-83 | gives the lock back and yields, or is interrupted between its steps; a wrong password exits |
| MlfqKernel.Kernel.FinishUnlock | xv6-public/project1/project1_schedulerLocker.c:68 | the rest of the unlock |
| MlfqKernel.Kernel.ChangePriority | xv6-public/project1/project1_other.c:27-32 | sets the priority of the running process, if it is one |
| MlfqKernel.Kernel.AllocProc | xv6-public/project1/proc.c:77-103 | the first unused process is queued as EMBRYO, after `clearmlfq`; fails where that follows a null pointer |
| MlfqKernel.Kernel.ForkProcess | xv6-public/project1/proc.c:77-103 | the first unused process becomes RUNNABLE in L0, or there is none |
| FileWrite.BmapCost | xv6-public/project1/fs.c:372-400 | what resolving one block can add to the log |
| FileWrite.WriteCost | xv6-public/project1/fs.c:481-511 | the blocks a whole write logs, counted: data, bitmap, indirect |
| FileWrite.WriteLogs | xv6-public/project1/fs.c:481-511 | every block written is logged, and none that was mapped moves |
| FileWrite.FreshLogs | xv6-public/project1/fs.c:481-511 | writing unmapped blocks logs exactly the blocks `balloc` hands out, with their bitmap blocks |
| FileWrite.ChunkFits | xv6-public/project1/file.c:126-152 | any chunk at any offset on a hole-free file logs at most MAXOPBLOCKS distinct blocks and leaves no hole |
| FileWrite.BoundExactly | xv6-public/project1/file.c:126-152 | a chunk logs exactly MAXOPBLOCKS blocks if and only if it starts inside a block, goes on over three unmapped blocks into an indirect region that is not there yet, and gets four blocks of four bitmap blocks; never on a disk with three bitmap blocks or fewer |
| FileWrite.BoundMet | xv6-public/project1/file.c:126-152 | such a chunk exists |
| FileWrite.Inode.AllocBlock | xv6-public/project1/fs.c:55-78 | the first free block, with its bitmap block logged |
| FileWrite.Inode.MapBlock | xv6-public/project1/fs.c:366-400 | resolves or allocates a block as `Bmap` says |
| FileWrite.Inode.Writei | xv6-public/project1/fs.c:481-511 | touches and logs the blocks `Written` says; -1 exactly when rejected |
| FileWrite.Inode.FileWrite | xv6-public/project1/file.c:116-154 | each operation of the loop logs at most MAXOPBLOCKS blocks, together they log every block of the stretch, all of which are mapped, and no mapped block moves; the size grows to the new offset; -1 exactly for a stretch that `writei` rejects, -2 only without a free block |
| Grep.PrintParse | xv6-public/project3/grep.c:84-96 | every string spells a pattern, and printing the pattern gives the string back |
| Grep.ParsePrint | xv6-public/project3/grep.c:84-96 | a printed pattern is read back if and only if it can be spelled: `*` behind a character repeats it, a last `$` asks for the end, `.` is any character |
| Grep.OneMeans | xv6-public/project3/grep.c:93-94 | one character, then the rest: the language of the first item |
| Grep.StarMeans | xv6-public/project3/grep.c:98-106 | `c*` then the rest: any number of accepted characters |
| Grep.StarNext | xv6-public/project3/grep.c:101-105 | trying one repetition more each time covers all |
| Grep.MatchHere | xv6-public/project3/grep.c:84-96 | true exactly when some beginning of the text is in the language of the pattern (all of it for `$`) |
| Grep.MatchStar | xv6-public/project3/grep.c:98-106 | true exactly when repetitions and the rest match |
| Grep.Match | xv6-public/project3/grep.c:72-82 | true exactly when the pattern matches somewhere, or at the start for `^` |
| SleepLock.LocksKept | xv6-public/project3/sleeplock.c:22-42 | both spin locks are held by the process that is where it holds them |
| SleepLock.MutexKept | xv6-public/project3/sleeplock.c:22-42 | at most one owner, and one exactly when locked |
| SleepLock.WakeupKept | xv6-public/project3/proc.c:417-474 | whoever sleeps on the lock, or is about to, will be woken |
| SleepLock.WakerWakes | xv6-public/project3/proc.c:454-474 | `wakeup` leaves nobody asleep on the lock |
| SleepLock.AtMostOneHolder | xv6-public/project3/sleeplock.c:22-42 | in every interleaving at most one process holds the lock |
| SleepLock.NoWakeupLost | xv6-public/project3/proc.c:417-474 | with both spin locks free, a sleeper implies a holder that will release |
| SleepLock.HoldingSleep | xv6-public/project3/sleeplock.c:44-53 | `holdingsleep` is true exactly for the holder |
| SleepLock.TakesFreeLock | xv6-public/project3/sleeplock.c:22-33 | a process that finds the lock free, or is woken when it is, and runs alone gets it |
| SleepLock.ReleasesLock | xv6-public/project3/sleeplock.c:35-42 | a holder that runs alone releases it and wakes every sleeper |
| SleepLock.HandedOver | xv6-public/project3/sleeplock.c:22-42 | from the holder to a sleeper: release, wakeup, and the sleeper holds it |
| ShellGrammar.LexRender | xv6-public/project3/sh.c:265-308 | tokens written out are read back |
| ShellLaws.AnySpaceSeparates | xv6-public/project3/sh.c:262-308 | blank, tab, carriage return, line feed and vertical tab each end a token and are part of none |
| ShellLaws.SymbolStands | xv6-public/project3/sh.c:277-291 | each other symbol is a token wherever it stands |
| ShellLaws.ArrowsStand | xv6-public/project3/sh.c:289-295 | `>>` is one token, `>` one unless another follows |
| ShellLaws.WordStands | xv6-public/project3/sh.c:296-300 | all other characters make a word, up to the next space or symbol |
| ShellGrammar.ArgsBack | xv6-public/project3/sh.c:431-442 | words, then redirections, are parsed back |
| ShellGrammar.BlockBack | xv6-public/project3/sh.c:399-413 | a parenthesized line is parsed back |
| ShellGrammar.BacksParsed | xv6-public/project3/sh.c:349-353 | any number of `&` is parsed back |
| ShellGrammar.PrintedBack | xv6-public/project3/sh.c:344-446 | a command printed at any level is parsed back, and nothing more |
| ShellGrammar.RoundTrip | xv6-public/project3/sh.c:327-446 | any well-formed tree, printed with parentheses where needed, is what the shell makes of the text |
| ShellGrammar.LineGood | xv6-public/project3/sh.c:344-446 | every accepted line gives a well-formed tree |
| ShellGrammar.NormalForm | xv6-public/project3/sh.c:327-446 | printing what was parsed and parsing it again gives the same tree |
| ShellLaws.AppendIsWrite | xv6-public/project3/sh.c:387-393 | the shell makes of `>>` what it makes of `>` |
| ShellLanguage.CommandRead | xv6-public/project3/sh.c:344-446 | whatever the parser reads is a command by a grammar given independently of it |
| ShellLanguage.CommandMeant | xv6-public/project3/sh.c:344-446 | whatever is a command by the grammar, before what may follow it, is read as that command and no further |
| ShellLanguage.ParsesTheLanguage | xv6-public/project3/sh.c:327-446 | the shell makes a tree of a line if and only if the line is that tree by the grammar, and refuses all other lines; no line has two trees |
| ShellStrings.ReadsBack | xv6-public/project3/sh.c:448-493 | when the words of a command end in NUL, all its pointers read as exactly the words of the line, though other separators may be NUL too |
| ShellStrings.NulTerminate | xv6-public/project3/sh.c:448-493 | writes NUL behind every word of the command, and nowhere else |
| ShellStrings.WrapText | xv6-public/project3/sh.c:374-397 | redirections around a tree mean those redirections around its command |
| ShellParser.Parser.SkipSpaces | xv6-public/project3/sh.c:272-273 | skips spaces, no token is lost |
| ShellParser.Parser.TakeToken | xv6-public/project3/sh.c:277-300 | one token, of its full length |
| ShellParser.Parser.GetToken | xv6-public/project3/sh.c:265-308 | the next token of the line, with its span where it is a word |
| ShellParser.Parser.Peek | xv6-public/project3/sh.c:310-320 | whether the next character is one of those asked for; no token is lost |
| ShellParser.Parser.Redirections | xv6-public/project3/sh.c:374-397 | terminates; the redirections and the rest, or a missing file |
| ShellParser.Parser.Arguments | xv6-public/project3/sh.c:429-445 | terminates; the spans of arguments and redirections, or a syntax error |
| ShellParser.Parser.Command | xv6-public/project3/sh.c:415-446 | terminates, as `ParseExec` says |
| ShellParser.Parser.Block | xv6-public/project3/sh.c:399-413 | terminates, as `ParseBlock` says |
| ShellParser.Parser.Pipeline | xv6-public/project3/sh.c:361-372 | terminates, as `ParsePipe` says |
| ShellParser.Parser.Line | xv6-public/project3/sh.c:344-359 | terminates, as `ParseLine` says |
| ShellParser.ParseCommand | xv6-public/project3/sh.c:327-342 | the tree of the whole line, or false for a syntax error or leftovers; afterwards each pointer of the tree is a C string, exactly the word that was parsed, and nothing but ends of words is overwritten |

## Left out

- KernelFs.FileSystem.Readi: the destination buffer is a returned sequence, and the device branch (`T_DEV`) is not modelled.
- KernelFs.FileSystem.Writei: the device branch is not modelled, and 32-bit wrap of `off + n` is excluded by the sizes a file can have.
- KernelFs.FileSystem.Balloc: the bitmap is one bit per element; packing eight bits to a byte is not modelled.
- KernelFs.FileSystem.Itrunc: the zeroing of table entries, which the code does not log, is part of the state change; its place in the log is not modelled.
- ImageRoundTrip.BuildBootRead: an image whose root directory got a hole is not booted; `readi` would map that block as it reads it.
- Umalloc.Allocator.Malloc: only requests of up to MAXREQUEST bytes; for larger ones the sizes wrap (`Umalloc.RequestExactly`) and the process shrinks or gets too little.
- MlfqKernel.Kernel.Sleep: channels are not modelled; a wakeup or kill is an event for one process.
- MlfqKernel.Kernel.ForkProcess: in the runs of `MlfqRuns` `fork` is one step that succeeds; with its steps apart, or when it fails, the invariant does not hold (`MlfqForks`).
- MlfqKernel.Kernel.Exit: waking the parent is a separate event before it; closing files and passing children on are not modelled; `init` never exits.
- FileWrite.Inode.Writei: file contents play no part; `KernelFs` has them for project3.
- Vm.Memory.MapPage: the "remap" panic is a precondition: the page is not mapped yet.
- Vm.Memory.MapPages: as MapPage; a user range is mapped page by page.
- Vm.Memory.AllocUvm: as MapPage: nothing is mapped where the process grows.
- Vm.Memory.CopyUvm: the panics for unmapped source pages are a precondition.
- LogDevice.Device.Commit: buffers are the cached contents; that the cache has the latest contents is `BufferCache`.
- The in-memory inode cache, directories, path names, links and `ialloc`.
- `inituvm`, `loaduvm`, `copyout` and `clearpteu`: one-page copies.
- project2: threads and memory limits.
- Spin lock internals, interrupts, context switch, devices, boot code: hardware.
- The line buffer of `grep`, running parsed commands, and the other user programs.
