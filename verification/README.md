# xv6 in Dafny

A model of the parts of this xv6 kernel and user library whose correctness is not visible from
any one function, with proofs of what they promise together.

- **Storage.** `BlockDisk`, `RedoLog` and `LogProtocol` are the redo log with group commit and
  crashes between any two block writes. `BufferRing` and `Bio` are the buffer cache; `LogCache` and
  `LogDevice` are log and cache together, every block of the log code going through bread, bpin,
  bwrite, bunpin and brelse, and `LogCalls` shows that their calls are runs of `LogProtocol`;
  `ClientRuns` and `LostUpdate` are processes beside them after a boot.
  `FsBlocks`, `FsFiles`, `FsTruncate`, `FsRoom`, `FsLogCost`, `FsCovers` and `FileSystem` are the bitmap,
  inodes, `bmap`, `readi`, `writei`, `itrunc` and `filewrite`; `Mkfs` is the image they start from, and
  `FsCrash` puts them on the log. `Links`, `LinkWidth`, `DirNames` and `Directories` are directory
  entries, names and link counts.
- **Memory.** `PageTable`, `PhysPages`, `AddressSpace`, `UserSpace`, `VmSteps` and `Vm` are the
  Sv39 page tables and the page allocator (section 4.4 of the RISC-V Privileged Architecture,
  Volume II); `PageBudget` counts the pages they take; `UserBytes` is `copyout`, and `ProcMemory` the
  memory side of `fork` and `exec`.
- **Concurrency.** `ExitWait`, `Kinship`, `InitWait` and `KillWait` are exit, wait, reparent and kill
  under the process locks; `Pipe` is the pipe ring; `VirtioRing`, `VirtioIo` and `VirtioDisk` the virtio
  queue, the device behind it and the driver (sections 2.6 and 5.2 of OASIS Virtio 1.1).
- **User programs.** `FreeList` and `Umalloc` are the K&R allocator; `ShellGrammar` and `Shell` the
  shell's parser, `ShellSyntax` the language it is for, and `ShellRead`, `ShellAccept` and `ShellPrint`
  that the one is a parser of the other; `Regex` and `Grep` the matcher and its line reader.

Where the source changes things in place the model does too: a class with the source's fields,
its loops and its link or array updates, proved against a function or predicate on values, about
which the lemmas are. Protocols that interleave are step machines (`LogProtocol`, `ClientRuns`,
`Links`, `ExitWait`) or classes whose methods are the stretches of code under one lock (`Pipe`, `Bio`, the
client calls of `LogDevice`, `VirtioDisk`), so that any order of calls is an interleaving. A `Sound`, `Inv` or `Valid`
predicate is what every operation keeps.

How the source is read:

- A block is a sequence of words or bytes, a physical page 512 words named by its page number;
  page number 0 and inode number 0 stand for null.
- `panic` is a precondition where the model shows that it cannot be reached, and a result value
  (`Panicked`, `Panic`, `-1`, a full table) where it can.
- What `read`, `copyin`, the device, the scheduler and other processes do is a parameter, a
  nondeterministic choice or a step; whether `sbrk` refuses to grow, and how far above the last
  region the next one lies, are parameters; `sleep` and the release of
  its lock are one step, as the process lock makes them.
- C arithmetic is written out where it can wrap or truncate: `refcnt`, pipe and queue counters,
  the `uint` a segment size is passed as, 64-bit overflow of program headers, the `int` sbrk
  takes, the `short` a link count is.

Where the code departs from what one would expect of it, the code is kept and the exact
condition is proved:

- The log is one block short of its operations' allowances, and tests its size before absorption:
  `LogProtocol.OverflowIff`, `LogProtocol.PanicsIff`, with a run in `LogProtocol.AbsorptionCanPanic`.
- Recovery unpins what was never pinned, and leaves every block it installs one reference short in
  the cache (`LogDevice.Log.RecoverFromLog`). After such a boot every read gives what was last stored,
  in every run, if and only if no installed block is fetched (`ClientRuns.TransparentIff`); else an
  update that was logged and released by the rules can be lost (`LostUpdate.Lose`).
  So the theorems about contents in `LogProtocol` are for runs that neither read nor log a block the
  last boot installed; all others hold of every run.
- mkfs leaves a hole when the root's entries fill whole blocks: `Mkfs.Image.Build`, `Mkfs.RoundIff`.
- `create` and `sys_link` do not ask whether the directory still has a name; the counts stay right
  for ever if and only if it has: `Links.CreateSoundIff`, `Links.EnterSoundIff`, with a run in
  `Links.OrphanedFile`.
- A link count is a `short` and nothing stops it at 32767: the counts are right throughout a run if and
  only if no step raises one that is there (`LinkWidth.RightIffRoom`); one link more, and unlink panics
  (`LinkWidth.TooManyLinks`).
- `malloc` passes a number of bytes on as an `int`: a request that no free block serves and that is
  larger than 2^31 - 32 bytes gets a block the process does not have (`Umalloc.Heap.Malloc`).
- `kill(0)` marks an unused slot, and the next process in it starts out killed (`ExitWait.Forked`).
- A killed pipe writer can leave a reader asleep, and a failed copy in `piperead` loses a byte:
  `Pipe.Channel.Write` and `Pipe.Channel.Read` say exactly when, with a run in `Pipe.StrandedReader`.
- `grep` prints exactly the matching lines if and only if every line fits its buffer:
  `Grep.PrintsMatchingIff`.
- init can sleep in wait beside a zombie, as a comment in `kernel/proc.c` fears:
  `InitWait.NeverLosesIff`, with a run in `InitWait.InitSleepsBesideZombie`.

`dafny verify dfyconfig.toml` checks everything.

## Model

| member | source | states |
|---|---|---|
| `RedoLog.HeadOfSetHead` | kernel/log.c:86-112 | reading the header block back gives the block list that write_head stored |
| `RedoLog.RecoveryInterrupted` | kernel/log.c:69-122 | stop recovery after any number of its writes: the disk is still a valid log disk and recovering again gives the same home blocks |
| `RedoLog.RepeatedCrashesInRecovery` | kernel/log.c:69-122 | any number of crashes inside recovery, at any writes, change nothing about what the recovery that completes produces |
| `RedoLog.CommitInterrupted` | kernel/log.c:177-202 | a crash after any write of commit recovers to all old home blocks or all new ones; the header write decides which; a finished commit is installed and its header empty |
| `RedoLog.CommitThenCrashes` | kernel/log.c:69-202 | a crash anywhere in commit, then any number of crashes in recovery, then one that completes: all old or all new, never a mixture, and all new once the header was written |
| `LogCache.HeldGet` | kernel/bio.c:58-90 | bget by any process keeps the invariant of log and cache: one pin per block of the list, every out-of-date block pinned or in a locked buffer |
| `LogCache.HeldStore` | kernel/bio.c:92-112 | a store into a locked buffer keeps it, the block counting as changed until it is logged or written |
| `LogCache.HeldFlush` | kernel/bio.c:106-112 | bwrite settles a changed block |
| `LogCache.HeldPin` | kernel/log.c:213-234 | log_write of a new block pins it, and the block is safe from eviction |
| `LogCache.HeldAbsorb` | kernel/log.c:213-230 | log_write of a listed block needs no second pin |
| `LogCache.ReleaseIsClean` | kernel/bio.c:116-137 | whoever gives up a reference without the lock finds that a last one is to a buffer the disk agrees with: what brelse relies on follows from log_write and install_trans |
| `LogCache.HeldDrop` | kernel/bio.c:124-136 | so brelse keeps the invariant |
| `LogCache.HeldUnpin` | kernel/log.c:68-82 | bunpin after bwrite takes the pin away, or leaves the block one reference short if it had none |
| `LogCache.HeldBacked` | kernel/log.c:68-82 | the cache is sound if and only if no block is short of a reference |
| `LogCache.BootedInstall` | kernel/log.c:68-82 | a block recovery installs stays at the old end of the buffer list, behind every buffer without references |
| `LogCache.SpareIff` | kernel/bio.c:75-90 | with nobody holding a buffer, bget finds one if and only if the blocks pinned and those recovery left a reference short are together fewer than the buffers |
| `LogDevice.AddBlock` | kernel/log.c:213-234 | absorption: the block list stays free of repetitions and holds exactly the old blocks and the new one |
| `LogDevice.Log.constructor` | kernel/log.c:54-65 | a log on a cache just after binit |
| `LogDevice.Log.Get` | kernel/bio.c:58-90 | bget beside the log: the invariant is kept whoever calls and whenever |
| `LogDevice.Log.Enter` | kernel/bio.c:92-103 | with the lock, bread gives the latest contents of the block, whatever was evicted meanwhile |
| `LogDevice.Log.Bread` | kernel/bio.c:92-103 | both together: the buffer is locked, holds the latest contents, and every other buffer is as it was; it fails only if the block is not cached and all buffers are referenced |
| `LogDevice.Log.Modify` | kernel/log.c:204-212 | a store changes the latest contents of that block alone, and the invariant counts it as changed |
| `LogDevice.Log.Bwrite` | kernel/bio.c:106-112 | one block write, recorded, with the buffer's contents; the block counts as changed no longer |
| `LogDevice.Log.Leave` | kernel/bio.c:116-122 | the lock is given up with the invariant kept, once changes are logged or written |
| `LogDevice.Log.Forget` | kernel/bio.c:124-136 | the reference is given up, and a last one only from a buffer the disk agrees with, whatever others did in between |
| `LogDevice.Log.Brelse` | kernel/bio.c:116-137 | both together: the reference is back and the invariant kept, given only that changes were logged or written |
| `LogDevice.Log.Bunpin` | kernel/bio.c:146-151 | a written block loses its pin with the invariant kept, or is from then on one reference short |
| `LogDevice.Log.CopyBlock` | kernel/log.c:182-188 | one block copied to its log block through the cache, all references given back; it panics exactly when every buffer is referenced, and then before doing anything |
| `LogDevice.Log.WriteLog` | kernel/log.c:177-190 | copies every block of the transaction from the cache to its log block, and writes nothing else, whatever the last boot installed |
| `LogDevice.Log.WriteHead` | kernel/log.c:101-112 | the header block then records exactly the in-memory block list |
| `LogDevice.Log.ReadHead` | kernel/log.c:85-96 | the in-memory list is the one the header block records |
| `LogDevice.Log.Readsb` | kernel/fs.c:30-38 | the one bread before recovery: it changes no contents and the cache is still one that only booting has used |
| `LogDevice.Log.InstallBlock` | kernel/log.c:73-81 | one log block reaches its home block, which loses a pin or ends one reference short; it fails only if all buffers but one are referenced |
| `LogDevice.Log.InstallTrans` | kernel/log.c:68-82 | every log block reaches its home block; commit ends with no pins and the blocks an earlier recovery left short as they were, recovery with every installed block one reference short; with a buffer to spare commit cannot fail here, and recovery fails exactly if the list has NBUF blocks or more |
| `LogDevice.Log.Commit` | kernel/log.c:192-202 | issues exactly the writes whose interruption CommitInterrupted covers, so that the disk is the old one with these applied; leaves disk and cache in agreement, the list empty and nothing pinned, whatever the last boot installed; panics only before its first write, exactly when no buffer is free |
| `LogDevice.Log.RecoverFromLog` | kernel/log.c:115-122 | runs out of buffers exactly if the header names NBUF blocks or more; else the disk becomes the recovered disk, the buffer of every installed block ends with count 2^32 - 1, the cache is sound if and only if there was none, and the log works on beside these blocks |
| `LogDevice.Log.TryBeginOp` | kernel/log.c:125-141 | admits an operation exactly when no commit is running and its allowance fits beside all outstanding ones |
| `LogDevice.Log.EndOp` | kernel/log.c:145-174 | the last operation out commits the group, any other only leaves; it panics exactly if the last one finds something to commit and no buffer |
| `LogDevice.Log.LogWrite` | kernel/log.c:213-234 | panics exactly when the list is full or no operation runs; else the block is in the list once, pinned exactly when it was added, and the invariant holds |
| `LogDevice.Log.Update` | kernel/log.c:204-234 | bread, store, log_write, brelse: whoever reads the block next gets the new contents, the disk is untouched, all references are given back |
| `LogDevice.CommitInPieces` | kernel/log.c:177-202 | the four calls of commit make up the planned sequence of writes |
| `LogDevice.CommitEffect` | kernel/log.c:177-202 | after a finished commit the disk holds what the cache holds |
| `LogDevice.RecoverEffect` | kernel/log.c:115-122 | after recovery disk and cache agree and nothing is logged |
| `LogDevice.CommitFindsBuffer` | kernel/log.c:177-202 | with nobody else holding a buffer, commit finds one if and only if the list and the blocks recovery left a reference short are together fewer than NBUF; after a boot that installed nothing a log of LOGSIZE blocks ensures it |
| `ClientRuns.NextKeeps` | kernel/bio.c:58-137 | a step of bget, bread, a store, log_write or brelse by any process keeps counts, locks and contents right, unless it fetches a block recovery installed |
| `ClientRuns.RunKeeps` | kernel/bio.c:58-137 | so does every run that leaves these blocks alone, however the processes interleave |
| `ClientRuns.Theft` | kernel/log.c:115-122 | for every installed block x and every block y not cached: the buffer a process has locked for x is given to the next one that asks for y |
| `ClientRuns.StoreIsLost` | kernel/log.c:204-234 | what the first process then stores for x, no reader of x gets |
| `ClientRuns.TransparentIff` | kernel/log.c:115-122 | after a boot that installed some blocks, with processes fetching from a given set: every read gives what was last stored, in every run, if and only if no installed block is in the set |
| `LostUpdate.Clients.constructor` | kernel/fs.c:40-47 | readsb and recovery on any valid disk give a log and cache on which the machine of processes starts, home blocks as recovered |
| `LostUpdate.Clients.Get` | kernel/bio.c:58-90 | bget on this log and cache is the Get step of that machine |
| `LostUpdate.Clients.Enter` | kernel/bio.c:92-103 | having the lock, and filling the buffer if need be, is its Enter step |
| `LostUpdate.Clients.Put` | kernel/log.c:204-212 | a store is its Put step |
| `LostUpdate.Clients.LogWrite` | kernel/log.c:213-234 | log_write is its Log step |
| `LostUpdate.Clients.Leave` | kernel/bio.c:116-122 | giving up the lock is its Leave step |
| `LostUpdate.Clients.Forget` | kernel/bio.c:124-136 | giving up the reference is its Forget step |
| `LostUpdate.Steal` | kernel/bio.c:58-103 | bread of an installed block by one process, then bget of an uncached one by another: they get the same buffer |
| `LostUpdate.BothGoOn` | kernel/log.c:204-234 | the first process stores into, and logs, the other block; the second fills the buffer from the disk; what was stored is then in no buffer |
| `LostUpdate.Lose` | kernel/log.c:115-122 | for every disk with a non-empty header, every installed block x, every other block y and all data: in the run LosingRun process 0 reads x, stores the data, logs and releases it, yet afterwards process 2 reads what recovery left in x, the list names only y, and no buffer differs from the disk, where x is as recovery left it |
| `LogProtocol.RunInv` | kernel/log.c:125-234 | the invariant of disk, operations and groups holds after every interleaving of begin, read, log write, end, single disk writes and crashes that neither reads nor logs a block the last boot installed |
| `LogProtocol.RunRoom` | kernel/log.c:125-234 | the log never outgrows its area and the operations' unused allowances, after every interleaving whatever |
| `LogProtocol.CrashSafety` | kernel/log.c:125-202 | in every state reached without reading or logging a block the last boot installed, a crash recovers the first boot's blocks with the durable groups applied in order; no operation is split over groups, and a group whose commit returned is durable (LostUpdate.Lose shows why the condition is there) |
| `LogProtocol.ReadsSeeAllUpdates` | kernel/log.c:125-234 | under the same condition, outside commit and recovery clients read every durable group and every later update |
| `LogProtocol.DurableForever` | kernel/log.c:145-202 | under the same condition, what a crash at one point would leave is what a crash at any later point leaves but for the groups that became durable in between, applied in order; what is durable or acknowledged stays so, crashes included |
| `LogProtocol.RunOver` | kernel/log.c:145-174 | after every run whatever: an operation of this boot is running, waits for the commit of its group, or is acknowledged; with no operation running and no commit under way the list is empty and none waits |
| `LogProtocol.EndedIsDurable` | kernel/log.c:145-202 | so then every operation begun in this boot is acknowledged and, under the same condition, in one durable group, the disk holds what clients read, and that is what a crash leaves |
| `LogCalls.Calls.constructor` | kernel/log.c:54-122 | booting from any valid disk is the machine's block writes of recovery, one by one |
| `LogCalls.Calls.Begin` | kernel/log.c:125-141 | begin_op goes ahead exactly if the machine's Begin is enabled, and is that step |
| `LogCalls.Calls.Read` | kernel/bio.c:92-137 | bread gives what the machine says clients read; it fails exactly if the block is not cached and all buffers are referenced |
| `LogCalls.Calls.Write` | kernel/log.c:204-234 | bread, store, log_write and brelse are the machine's log write; they panic exactly if the machine says the log is full, or no buffer is to be had |
| `LogCalls.Calls.End` | kernel/log.c:145-202 | end_op is the machine's End and, for the last operation out, every block write of its commit; then nothing is left to commit and the whole group is acknowledged; so all theorems about runs are about these calls |
| `LogProtocol.NoOverflow` | kernel/log.c:125-234 | with log.size above LOGSIZE no log_write of an operation within its allowance panics, absorbed or not |
| `LogProtocol.OverflowIff` | kernel/log.c:213-234 | operations within their allowances never overflow the log if and only if log.size is above LOGSIZE |
| `LogProtocol.PanicsIff` | kernel/log.c:213-230 | in every reachable state log_write panics, for whatever block, if and only if the list is full; with log.size above LOGSIZE every running operation has then used up its allowance |
| `LogProtocol.AbsorptionCanPanic` | kernel/log.c:213-230 | a run in which a log_write that would only be absorbed panics |
| `FreeList.InsertWellFormed` | user/umalloc.c:24-44 | freeing a live block keeps the list address-ordered, without overlap or uncoalesced neighbours, and leaves every other block alone |
| `FreeList.InsertTotal` | user/umalloc.c:24-44 | free units grow by exactly the freed size, whatever merges |
| `FreeList.InsertUnits` | user/umalloc.c:24-44 | unit by unit: free afterwards is what was free and what was freed |
| `FreeList.CarveWellFormed` | user/umalloc.c:63-90 | units taken from a free block form a live block apart from every other block |
| `FreeList.CarveTotal` | user/umalloc.c:63-90 | free units shrink by exactly what was taken |
| `FreeList.CarveUnits` | user/umalloc.c:63-90 | unit by unit: free afterwards is what was free and was not taken |
| `FreeList.GrowWellFormed` | user/umalloc.c:46-60 | a fresh region above the heap joins as one more live block |
| `Umalloc.StopsBelow` | user/umalloc.c:30-32 | free's loop condition stops at the one block below the freed address, wrap-around included |
| `Umalloc.UnitsEnough` | user/umalloc.c:69 | the units malloc takes behind the header hold the bytes asked for, with less than one unit to spare |
| `Umalloc.FreedLinked` | user/umalloc.c:33-43 | free's header writes link exactly the list with the block merged in |
| `Umalloc.CarvedLinked` | user/umalloc.c:73-83 | malloc's header writes link exactly the list with the units taken out |
| `Umalloc.FreeSound` | user/umalloc.c:24-44 | after free: list, headers, live blocks and the balance of free plus allocated units against sbrk all hold |
| `Umalloc.CarveSound` | user/umalloc.c:63-90 | the same after an allocation |
| `Umalloc.GrowSound` | user/umalloc.c:46-60 | the same after sbrk returned a region |
| `Umalloc.InitSound` | user/umalloc.c:67-70 | the one-block list malloc starts from is sound |
| `Umalloc.Heap.constructor` | user/umalloc.c:21-22 | before the first call there is no list and nothing was obtained |
| `Umalloc.Heap.FindBelow` | user/umalloc.c:30-32 | the walk round the circle ends, at the block after which the freed one belongs |
| `Umalloc.Heap.Splice` | user/umalloc.c:33-43 | the header writes are those FreedLinked is about |
| `Umalloc.Heap.Free` | user/umalloc.c:24-44 | the block leaves the live set, exactly its units become free, nothing else moves, and freep points below it |
| `Umalloc.Heap.Sbrk` | kernel/proc.c:238-254 | a growth fails exactly if refused, and else gives a fresh region above everything handed out; anything else is granted and gives no memory, the end moving down or, below address 0, not at all |
| `Umalloc.Heap.Morecore` | user/umalloc.c:46-60 | obtains nu units, or 4096 if that is more, exactly these becoming free, and some free block then has nu units; or changes nothing, exactly if sbrk is asked to grow and refuses; or, exactly when the bytes of nu units do not fit an int and it does not refuse, claims a region that reaches past the memory the process has |
| `Umalloc.Heap.Lap` | user/umalloc.c:71-86 | one lap finds a block if and only if some block has the units, and the first such one in list order |
| `Umalloc.Heap.Take` | user/umalloc.c:73-84 | the block taken is the tail of the found one or all of it |
| `Umalloc.Heap.Malloc` | user/umalloc.c:63-90 | for every uint: a block whose bytes behind the header hold nbytes, below the end of memory and in no other live or free block, exactly its units leaving the free ones; null exactly if no free block is large enough, sbrk refuses and it was asked to grow; after a successful morecore the next lap succeeds; the block is not the process's own exactly if no free block was large enough, sbrk did not refuse and more than 2^31 - 32 bytes were asked for |
| `Umalloc.RequestBound` | user/umalloc.c:54-69 | units fit an int as bytes exactly up to 2^31 - 32 bytes; what sbrk is asked for is positive exactly for these and the 15 largest requests |
| `BufferRing.PushRing` | kernel/bio.c:36-53 | binit's link assignments put a new buffer at the front of the ring and keep it a ring of all buffers |
| `BufferRing.MoveToFront` | kernel/bio.c:116-137 | brelse's six link assignments move one buffer to the front and keep every other in place |
| `Bio.GetSound` | kernel/bio.c:58-90 | taking a cached buffer, or recycling an unreferenced one, keeps counts, uniqueness and contents right |
| `Bio.RecycleTracked` | kernel/bio.c:75-86 | recycling a buffer nobody has loses nothing: what it held is on the disk |
| `Bio.LoadSound` | kernel/bio.c:92-103 | a locked buffer, filled if it was invalid, holds the latest contents of its block |
| `Bio.ModifySound` | kernel/bio.c:92-112 | a store into a locked buffer changes the logical contents of its block and no other |
| `Bio.UnrefSound` | kernel/bio.c:124-136 | giving up a reference hides no update if a last one is to a buffer the disk agrees with |
| `Bio.PinSound` | kernel/bio.c:139-144 | a pin is counted and keeps the block cached |
| `Bio.UnpinSoundIff` | kernel/bio.c:146-151 | bunpin keeps the cache sound if and only if the buffer was pinned |
| `Bio.InstallSoundIff` | kernel/log.c:68-82 | bread, bunpin and brelse of a written block leave the cache sound if and only if the block was pinned |
| `Bio.LastIsOldest` | kernel/bio.c:75-86 | the last unreferenced buffer of the list was released before every other unreferenced one |
| `Bio.AgedAfterMove` | kernel/bio.c:116-137 | moving a buffer to the front keeps the list in order of release |
| `Bio.BufferCache.constructor` | kernel/bio.c:36-53 | all buffers free, in one ring, and every block's logical contents are the disk's |
| `Bio.BufferCache.FindCached` | kernel/bio.c:63-72 | the one buffer of a block, or proof that there is none |
| `Bio.BufferCache.FindVictim` | kernel/bio.c:75-86 | the unreferenced buffer released longest ago, or proof that all are referenced |
| `Bio.BufferCache.Bget` | kernel/bio.c:58-90 | the cached buffer with one more reference, else the least recently released one recycled; it fails exactly if the block is not cached and all are referenced |
| `Bio.BufferCache.Acquire` | kernel/bio.c:69-70 | locking changes nothing but the lock |
| `Bio.BufferCache.Load` | kernel/bio.c:92-103 | bread: in a sound cache the locked buffer holds the latest logical contents of its block |
| `Bio.BufferCache.Modify` | kernel/bio.c:92-112 | a client's store is the block's new logical contents |
| `Bio.BufferCache.Bwrite` | kernel/bio.c:106-112 | the disk block then holds the buffer's data |
| `Bio.BufferCache.Release` | kernel/bio.c:116-122 | the lock is free, the reference kept |
| `Bio.BufferCache.Unref` | kernel/bio.c:124-136 | one reference less; the last one makes the buffer the most recently released; sound if that one was clean |
| `Bio.BufferCache.ToFront` | kernel/bio.c:126-134 | the ring stays a permutation of all buffers, in order of release |
| `Bio.BufferCache.Bpin` | kernel/bio.c:139-144 | one pin more and nothing else |
| `Bio.BufferCache.Bunpin` | kernel/bio.c:146-151 | one pin less and nothing else, and a sound cache stays sound if and only if there was a pin |
| `FsBlocks.AllocOwned` | kernel/fs.c:64-86 | a block marked and zeroed by balloc was owned by nobody and changes no ownership |
| `FsBlocks.AttachOwned` | kernel/fs.c:377-405 | storing that block's address in an empty slot makes it that slot's, once |
| `FsFiles.BmapSound` | kernel/fs.c:377-405 | bmap keeps every address owned once, marked and in range, keeps every byte of every file, and returns the address the block has from then on |
| `FsFiles.EnsureOwned` | kernel/fs.c:382-399 | the same for each single slot bmap fills |
| `FsFiles.PatchByte` | kernel/fs.c:482-514 | writing into one block of a file changes those bytes of that file only |
| `FsFiles.WritingNext` | kernel/fs.c:482-514 | one iteration of writei extends the splice by one block's worth |
| `FsFiles.WritingDone` | kernel/fs.c:482-514 | after the last iteration and the size update the file is the old one with the data spliced in |
| `FsRoom.EnsureRoom` | kernel/fs.c:64-86 | filling one slot takes one free block if the slot is empty, and fails exactly if there is none |
| `FsRoom.BmapRoom` | kernel/fs.c:377-405 | bmap takes as many free blocks as the block and its table are missing, and fails exactly if fewer are free |
| `FsRoom.NeedThrough` | kernel/fs.c:482-514 | what a range of blocks needs is what its first part needs and what the rest needs once that is there |
| `FsRoom.StepGrew` | kernel/fs.c:492-503 | one iteration of writei takes what its bytes need and leaves the file's other blocks as they were |
| `FsRoom.StepFull` | kernel/fs.c:492-503 | an iteration that fails proves that the whole write needs more blocks than were free |
| `FsTruncate.DropDirectOwned` | kernel/fs.c:89-103 | bfree's block is marked, so it does not panic, and afterwards nobody owns it |
| `FsTruncate.TruncateDone` | kernel/fs.c:409-437 | the truncated file is empty and without blocks, and no other file changed |
| `FsTruncate.RetypeInv` | kernel/fs.c:195-215 | setting a type keeps the invariant |
| `FsLogCost.BmapLog` | kernel/fs.c:377-405 | what bmap logs in each of its cases |
| `FsLogCost.ChargeNext` | kernel/fs.c:482-514 | one iteration of writei adds at most its share of log blocks, for any bitmap size |
| `FsLogCost.ChunkFits` | kernel/file.c:148-175 | a chunk of filewrite, its inode block included, fits MAXOPBLOCKS |
| `FsCovers.BmapCovers` | kernel/fs.c:377-405 | bmap logs every block it changes but the inode's |
| `FsCovers.SteppedCovers` | kernel/fs.c:492-503 | so does one iteration of writei |
| `FsCovers.CoversThrough` | kernel/log.c:204-234 | what two stretches of a transaction log together covers what they change together |
| `FileSystem.Disk.constructor` | kernel/fs.c:40-47 | a file system on any image that satisfies the invariant |
| `FileSystem.Disk.Balloc` | kernel/fs.c:64-86 | the lowest clear bit, then marked and zeroed, or none exists |
| `FileSystem.Disk.Bmap` | kernel/fs.c:377-405 | the address of block bn, allocated with its table if missing, and what was logged for it |
| `FileSystem.Disk.Readi` | kernel/fs.c:455-478 | exactly the requested slice, cut at the end of the file, with nothing changed: every block below size exists |
| `FileSystem.Disk.ReadBlocks` | kernel/fs.c:465-476 | the loop's blocks put together are that slice |
| `FileSystem.Disk.Writei` | kernel/fs.c:482-514 | refused exactly when out of bounds; panics exactly when fewer blocks are free than the file lacks in the range, its table included; else the data is spliced in at off, those blocks and no others are taken, no other file changes, every block that differs on disk is logged, and a chunk of filewrite's size logs at most MAXOPBLOCKS blocks |
| `FileSystem.Disk.WriteBlocks` | kernel/fs.c:492-503 | the loop goes through exactly if enough blocks are free; its progress and its log count; what differs is logged, but for the inode |
| `FileSystem.Disk.Itrunc` | kernel/fs.c:409-437 | the file is empty, its blocks are free, no other file changed, and freeing a free block is never reached |
| `FileSystem.Disk.FreeTable` | kernel/fs.c:421-432 | the blocks of the indirect table and the table itself are free |
| `FileSystem.Disk.Ialloc` | kernel/fs.c:195-215 | the lowest free inode gets the type and is empty, or there is none |
| `FileSystem.Disk.Ifree` | kernel/fs.c:332-358 | an inode without links ends free and empty |
| `FileSystem.Disk.Filewrite` | kernel/file.c:148-175 | all chunks together are one write; it panics exactly if the chunks before one is refused need more blocks than are free; every state a transaction commits is a whole number of chunks; each transaction logs at most MAXOPBLOCKS blocks, among them all that differ from the state committed before |
| `FileSystem.FirstBlockExists` | kernel/fs.c:482-495 | an unaligned write starts in a block that exists already |
| `FileSystem.SpliceTwice` | kernel/file.c:148-175 | two writes back to back are one write |
| `FsCrash.GroupApplied` | kernel/log.c:68-82 | applying a group that carries a transaction takes the disk from the state before it to the state after it |
| `FsCrash.CrashLeavesCommitted` | kernel/log.c:125-202 | in every state of the log reached as in CrashSafety, with durable groups that carry these transactions, crash and recovery leave the state after exactly the durable ones |
| `FsCrash.CrashDuringFilewrite` | kernel/file.c:148-175 | so a crash during filewrite leaves the file as it was or with a whole number of chunks written, and every other file as it was |
| `FsCrash.FirstBoot` | mkfs/mkfs.c:67-176 | mkfs's image is a file system with the host files' contents, exactly unless the root's entries end on a block boundary |
| `Mkfs.LayoutFits` | mkfs/mkfs.c:21-30 | the inode blocks and the bitmap hold what they must and do not overlap |
| `Mkfs.CounterIsBalloc` | mkfs/mkfs.c:262-305 | the next block of the counter is the one balloc would pick |
| `Mkfs.TightNeed` | mkfs/mkfs.c:262-305 | a file of the image that grows by n bytes needs exactly the blocks a file of the new size has more than one of the old |
| `Mkfs.Image.constructor` | mkfs/mkfs.c:109-112 | the empty image satisfies the ownership invariant, the counter at the first data block |
| `Mkfs.Image.MapBlock` | mkfs/mkfs.c:274-294 | iappend's block is the one bmap would use, and there is none exactly if bmap finds none |
| `Mkfs.Image.MapIndirect` | mkfs/mkfs.c:281-294 | the same through the indirect table |
| `Mkfs.Image.Iappend` | mkfs/mkfs.c:262-305 | the file grows by exactly the data, no other file changes, and the counter by the blocks that takes; it fails exactly if these do not fit |
| `Mkfs.Image.Ialloc` | mkfs/mkfs.c:231-243 | the next inode, empty, with one link |
| `Mkfs.Image.CopyFile` | mkfs/mkfs.c:160-161 | a host file's contents arrive whole, exactly if their blocks fit |
| `Mkfs.Image.Balloc` | mkfs/mkfs.c:245-258 | the bitmap marks exactly the blocks used; its assertion fails exactly when they do not fit one bitmap block |
| `Mkfs.Image.MakeRoot` | mkfs/mkfs.c:118-129 | the root directory holds the entries "." and ".." and zeros after them, exactly if its block fits |
| `Mkfs.Image.AddFile` | mkfs/mkfs.c:153-163 | one more host file with its contents, and its entry at the end of the root, exactly if their blocks fit |
| `Mkfs.DirentReads` | mkfs/mkfs.c:155-158 | an entry read as dirlookup reads it gives the inode number and the name, cut to 14 characters |
| `Mkfs.Image.Build` | mkfs/mkfs.c:67-176 | it finishes exactly if the blocks of the root and of all files fit the image and the bitmap block; then the image satisfies the kernel's file system invariant if and only if the root's entries do not end on a block boundary; every file holds its host contents, and the root the dots, one entry per file, and zeros |
| `Mkfs.RoundIff` | mkfs/mkfs.c:166-171 | rounding the root's size leaves a hole exactly in that case |
| `Links.LinkCounts` | kernel/sysfile.c:118-284 | after every run of create, link, its rollback, unlink and freeing, a link count is the number of entries naming the inode, "." aside and ".." only from linked directories, plus unfinished links, counts being unbounded |
| `Links.LinkedIffNamed` | kernel/sysfile.c:183-239 | a directory is the root or named by an entry if and only if its link count is positive |
| `Links.UnlinkNeverPanics` | kernel/sysfile.c:211-212 | unlink never finds a link count below 1, counts being unbounded |
| `Links.NamedCounts` | kernel/sysfile.c:183-239 | what an entry names exists and has a positive count |
| `Links.CreateDirKeeps` | kernel/sysfile.c:241-284 | making a directory keeps counts and nesting |
| `Links.CreateFileKeeps` | kernel/sysfile.c:241-284 | making a file or device does |
| `Links.EnterKeeps` | kernel/sysfile.c:145-152 | sys_link's new entry settles the count it raised |
| `Links.RaiseKeeps` | kernel/sysfile.c:134-143 | raising the count first is an unfinished link |
| `Links.LowerKeeps` | kernel/sysfile.c:159-165 | its rollback restores the count |
| `Links.UnlinkDirKeeps` | kernel/sysfile.c:183-239 | removing an empty directory drops its name and its ".." together |
| `Links.UnlinkFileKeeps` | kernel/sysfile.c:183-239 | removing a file's name drops its count |
| `Links.FreeKeeps` | kernel/fs.c:332-358 | freeing an inode without links leaves no entry that names it |
| `Links.CreateSoundIff` | kernel/sysfile.c:241-284 | after creating in a directory the link counts are right in every later state of every run if and only if that directory still has a link |
| `Links.EnterSoundIff` | kernel/sysfile.c:145-152 | the same for the entry sys_link makes |
| `Links.OrphanedFile` | kernel/sysfile.c:241-284 | mkdir and rmdir from the root of mkfs, then a file created in the removed directory: it keeps count 1 after the directory is freed and no entry names it |
| `LinkWidth.RightIffRoom` | kernel/file.h:27 | with counts of 16 bits, the counts are right in every state of a run if and only if no step raises a count that is 32767 |
| `LinkWidth.SameRun` | kernel/file.h:27 | such a run is one of the unbounded machine |
| `LinkWidth.NoPanicWithRoom` | kernel/sysfile.c:211-212 | and unlink does not panic in it |
| `LinkWidth.ManyLinks` | kernel/sysfile.c:118-165 | every count up to 32767 is reached by create and link |
| `LinkWidth.TooManyLinks` | kernel/sysfile.c:211-212 | with one link more, unlink of the new name panics |
| `DirNames.NamesFollowCalls` | kernel/sysfile.c:118-284 | after every run, looking a name up gives the inode last entered under it, none once it is unlinked, and every inode has the type it was created with: the slots do what a table from directory and name to inode does |
| `DirNames.CreateSays` | kernel/sysfile.c:241-284 | the new inode has the type asked for, its name leads to it, a new directory has its dots, and no other name changes |
| `DirNames.EnterSays` | kernel/sysfile.c:145-152 | the new name leads to the linked inode, and no other name changes |
| `DirNames.UnlinkSays` | kernel/sysfile.c:183-239 | the name leads nowhere, and no other name changes |
| `DirNames.FreeSays` | kernel/fs.c:332-358 | freeing an inode takes away its own names only |
| `Directories.Inodes.Dirlookup` | kernel/fs.c:526-550 | the first entry with the name, or none |
| `Directories.Inodes.Isdirempty` | kernel/sysfile.c:168-181 | whether anything but the dots is left |
| `Directories.Inodes.FindVacant` | kernel/fs.c:566-571 | the first free slot, or the end |
| `Directories.Inodes.Dirlink` | kernel/fs.c:553-580 | refused if the name is there, else entered in the first free slot |
| `Directories.Inodes.MakeDots` | kernel/sysfile.c:269-277 | the two entries of a new directory |
| `Directories.Inodes.Create` | kernel/sysfile.c:241-284 | the step of the link model, after which the new inode has the type asked for and the name leads to it, or the existing file, or a refusal; the counts stay right for ever exactly if nothing was entered or the parent has a link; only ".." of an unlinked directory can make ilock panic |
| `Directories.Inodes.LinkBegin` | kernel/sysfile.c:128-143 | directories are refused, else the count is raised |
| `Directories.Inodes.LinkEnd` | kernel/sysfile.c:145-165 | entered, the name then leading to the inode, or rolled back when the name exists or the path does not; the counts stay right for ever exactly if rolled back or the directory has a link |
| `Directories.Inodes.Unlink` | kernel/sysfile.c:183-239 | succeeds exactly when the model's step is enabled, and does that step; the name then leads nowhere |
| `Directories.Inodes.Iput` | kernel/fs.c:332-358 | an inode without links is freed |
| `PageTable.MkParts` | kernel/riscv.h:329-340 | page number and flags come back out of an entry as they went in |
| `PageTable.WalkAgreesWithSv39` | kernel/vm.c:60-91 | for every address below MAXVA the hardware's translation finds exactly the mapped page, or faults |
| `PageTable.HangTree` | kernel/vm.c:78-88 | a zeroed page hung under an empty entry is one more table page, reached by one path only |
| `PageTable.HangLookup` | kernel/vm.c:78-88 | and no page is mapped differently |
| `PageTable.LeafLookup` | kernel/vm.c:148-168 | storing one entry changes one page of one tree and no other page of any |
| `PageTable.LeafTree` | kernel/vm.c:148-168 | and no table page |
| `PhysPages.HeapTake` | kernel/kalloc.c:68-82 | kalloc takes the head of the list and every page is still free or in use, never both |
| `PhysPages.HeapGive` | kernel/kalloc.c:46-63 | kfree puts a page in use at the head |
| `PhysPages.FreeIsTheRest` | kernel/kalloc.c:46-82 | the free pages are exactly the allocatable ones not in use |
| `AddressSpace.GrowSound` | kernel/vm.c:78-88 | walk's new table page keeps the whole invariant |
| `AddressSpace.UnmapSound` | kernel/vm.c:180-194 | freeing a page before clearing its entry leaves the invariant intact once both are done |
| `AddressSpace.MapRefines` | kernel/vm.c:148-168 | mapping pages adds exactly those entries to one finite map |
| `AddressSpace.UnmapRefines` | kernel/vm.c:173-195 | unmapping removes exactly those |
| `Vm.Memory.constructor` | kernel/kalloc.c:26-40 | every page from the end of the kernel to PHYSTOP is free and none is in use |
| `Vm.Memory.Kalloc` | kernel/kalloc.c:68-82 | a page nobody used, or 0 when none is free |
| `Vm.Memory.Descend` | kernel/vm.c:78-88 | the table page below one entry, made only if missing and wanted |
| `Vm.Memory.Walk` | kernel/vm.c:71-91 | the table page holding the entry, nothing mapped differently; it fails only when memory is out, and without alloc changes nothing |
| `Vm.Memory.Walkaddr` | kernel/vm.c:94-112 | the mapped page if it is a user page, else 0 |
| `Vm.Memory.MapPage` | kernel/vm.c:157-162 | one page mapped, or memory is out |
| `Vm.Memory.Mappages` | kernel/vm.c:148-168 | the finite map of this table gains exactly those pages, every other table's map is unchanged, and it stops early only when memory is out |
| `Vm.Memory.UnmapPage` | kernel/vm.c:180-194 | one page unmapped; the "not a leaf" panic cannot happen |
| `Vm.Memory.Uvmunmap` | kernel/vm.c:173-195 | exactly those pages leave this table's map, freed if asked, and no other map changes |
| `Vm.Memory.Uvmcreate` | kernel/vm.c:199-208 | an empty table, or nothing changed, exactly if no page is free |
| `Vm.Memory.AddPage` | kernel/vm.c:237-250 | a page with given contents at one address, taking it and the missing table pages; or nothing but table pages added, and then fewer pages were free than that |
| `Vm.Memory.Uvmdealloc` | kernel/vm.c:258-270 | the pages above the new size are unmapped and free |
| `Vm.Memory.Uvmalloc` | kernel/vm.c:228-252 | zeroed pages up to the new size, taking these and the missing table pages; or nothing but table pages added, and then fewer pages were free than that; running into the trapframe or a mapped page is impossible |
| `Vm.Memory.Uvmcopy` | kernel/vm.c:308-336 | every page's contents and flags copied, taking the pages and the missing table pages; or nothing but table pages added, and then fewer pages were free than that |
| `Vm.Memory.Uvmclear` | kernel/vm.c:340-349 | the page stays mapped and is closed to the user |
| `Vm.Memory.Freewalk` | kernel/vm.c:274-290 | frees exactly the table pages of the subtree; the "leaf" panic cannot happen |
| `Vm.Memory.Uvmfree` | kernel/vm.c:294-300 | every page of the table, mapped or table, is free, and nothing else changed |
| `Vm.Memory.ProcPagetable` | kernel/proc.c:157-186 | trampoline and trapframe mapped and nothing else, taking their table pages; or the free set and all pages in use as before, and then fewer pages were free than that |
| `Vm.Memory.ProcFreepagetable` | kernel/proc.c:190-196 | all pages of the address space are free and nothing else changed |
| `UserSpace.SpaceBound` | kernel/vm.c:228-252 | a process cannot have as many pages as lie below the trapframe |
| `UserSpace.AddedUndone` | kernel/vm.c:228-252 | unmapping what was added leaves only the added table pages |
| `PageBudget.Spent` | kernel/kalloc.c:46-82 | what one address space takes more is exactly what is free less |
| `PageBudget.AddCost` | kernel/vm.c:60-91 | mapping a fresh page takes the page and exactly the table pages on its way that were missing |
| `PageBudget.AddOut` | kernel/vm.c:237-250 | where a table page cannot be had, fewer pages were free than that |
| `PageBudget.SpaceCost` | kernel/vm.c:199-252 | an address space of n pages takes n and its table pages |
| `PageBudget.CostGrows` | kernel/vm.c:228-252 | growing one costs the new pages and the table pages they need beyond the old ones' |
| `UserBytes.ByteOfWord` | kernel/vm.c:354-376 | the bytes of a word come back in order, low byte first |
| `UserBytes.OverByte` | kernel/vm.c:367 | after a memmove into a page each byte is the one written or the one that was there |
| `UserBytes.Copyout` | kernel/vm.c:354-376 | succeeds exactly if the user may use every page touched; then the bytes are there and no other byte of this or any address space has changed |
| `ProcMemory.Freeproc` | kernel/proc.c:136-153 | the trapframe and all pages of the address space are given back |
| `ProcMemory.Fork` | kernel/proc.c:258-301 | the child's memory equals the parent's page by page, or free set and pages in use are as before, exactly if fewer pages are free than a trapframe and an address space of that size take |
| `ProcMemory.Loadseg` | kernel/exec.c:135-156 | succeeds exactly if the file has a page for each of the segment; then every page of the segment holds its data and every other page what it held; only the process's own pages change; the missing-page panic cannot happen |
| `ProcMemory.LoadSegment` | kernel/exec.c:41-62 | on success every page holds what the segments so far bring; on every exit the size goes with the pages mapped so far; it fails only if the program header is bad or fewer pages are free than the grown address space takes |
| `ProcMemory.ExecBad` | kernel/exec.c:119-127 | exec's failure exit restores the free set and touches no page in use |
| `ProcMemory.PushArgs` | kernel/exec.c:75-98 | succeeds exactly if there are at most MAXARG arguments and they and the pointer array fit the stack page; then strings and array are apart, aligned and in bounds, each string is at its address, the array holds these addresses and a zero, and no other page has changed |
| `ProcMemory.Exec` | kernel/exec.c:12-128 | succeeds exactly if the header and every program header are good, the arguments fit the stack page and enough pages are free for the new address space beside the old; then the new address space replaces the old one exactly, every page but the stack holding what the last segment covering it brings or zeros, the stack holding the argument strings and the array of pointers to them at sp, with a guard page below; or free set and pages in use are as before |
| `ExitWait.NextKeeps` | kernel/proc.c:305-447 | every step of exit, wait, reparent, fork, sleep, wakeup, kill of any slot, the scheduler, and a yield wherever interrupts are on keeps the invariant of locks, parents, pids and exit statuses |
| `ExitWait.NoLostZombie` | kernel/proc.c:332-447 | no process but init is ever asleep in wait while it has a zombie child |
| `ExitWait.ReportedOnce` | kernel/proc.c:397-447 | each successful wait reports a pid no other did, with the status that pid exited with |
| `ExitWait.ReapsOwnChild` | kernel/proc.c:405-430 | what is reaped is at that moment the caller's own zombie child, off its CPU, and the report carries its pid and status |
| `ExitWait.BecomeZombieKeeps` | kernel/proc.c:371-380 | a process turns zombie holding the lock of the only parent that could be asleep or scanning |
| `ExitWait.GiveChildKeeps` | kernel/proc.c:305-327 | giving a child to init disturbs no scan |
| `ExitWait.ScanOverKeeps` | kernel/proc.c:436-444 | going to sleep after a scan that found no zombie misses none |
| `Kinship.NextKin` | kernel/proc.c:258-447 | every step keeps the relation of parents, forks and exits, and what each scan in wait has passed over |
| `Kinship.WaitFailsOnly` | kernel/proc.c:397-447 | wait returns -1 only if the process has been killed, has no child at that moment, or the status of a zombie child of its own cannot be copied out; init included, whatever reparent does meanwhile |
| `Kinship.ParentForked` | kernel/proc.c:258-327 | every process but init has a parent in use: the one that forked it or, only once that one has called exit, init |
| `Kinship.ExitedByCall` | kernel/proc.c:332-380 | after a call of exit the status recorded for the pid is its argument, in every later state |
| `Kinship.ReportsCall` | kernel/proc.c:332-430 | so the status wait reports is the argument of that process's exit |
| `KillWait.KilledForGood` | kernel/proc.c:617-637 | from kill on, whatever runs, the process is marked killed, is never asleep in wait, and a scan that finds no zombie ends its wait |
| `InitWait.InitSleepsBesideZombie` | kernel/proc.c:305-327 | for every table of at least four slots a run from boot after which init is asleep in wait beside a zombie child and no process is inside exit |
| `InitWait.NeverLosesIff` | kernel/proc.c:305-447 | a slot is never asleep in wait beside a zombie child, in any run, if and only if it is not init's |
| `Pipe.Channel.constructor` | kernel/pipe.c:22-56 | an empty pipe with both ends open |
| `Pipe.Channel.Write` | kernel/pipe.c:76-100 | bytes are put in order until the end, an address that cannot be read, or a full pipe, never past 512 in the pipe, with wrapping counters; sleepers stay justified if and only if the caller is not a killed writer with more than 512 readable bytes while a reader sleeps |
| `Pipe.Channel.Read` | kernel/pipe.c:102-127 | takes as many bytes as asked, readable and there, the next ones put in; one more is lost exactly when the copy fails at a byte that was asked for and there; sleepers stay justified |
| `Pipe.Channel.Close` | kernel/pipe.c:58-74 | the other end's sleepers are woken, stranded ones included; afterwards no sleeper is stranded |
| `Pipe.Channel.Kill` | kernel/proc.c:617-637 | a killed sleeper is woken, stranded or not, and nobody else's sleep becomes unjustified |
| `Pipe.StrandedReader` | kernel/pipe.c:85-89 | a concrete run with a killed writer that leaves a reader asleep beside a full pipe |
| `Pipe.PutSound` | kernel/pipe.c:95 | one byte more in the ring, at the slot the wrapped counter gives |
| `Pipe.TakeSound` | kernel/pipe.c:118-120 | the byte taken is the oldest not yet taken |
| `Pipe.FullTest` | kernel/pipe.c:85 | comparing wrapped counters decides full and empty |
| `VirtioRing.AtMostTwo` | kernel/virtio_disk.c:168-249 | at most two requests are outstanding |
| `VirtioRing.RingsFit` | kernel/virtio_disk.c:251-270 | comparing the counters modulo NUM tells a finished request from none |
| `VirtioRing.RoomForOne` | kernel/virtio_disk.c:115-166 | three descriptors are free exactly when fewer than two requests are outstanding |
| `VirtioRing.OfferSound` | kernel/virtio_disk.c:188-236 | a formatted and offered request keeps partition, chains, rings and flags right |
| `VirtioRing.FetchSound` | kernel/virtio_disk.c:230-236 | the device finds the oldest request offered |
| `VirtioRing.CompleteSound` | kernel/virtio_disk.c:251-270 | the device may finish any request it has fetched |
| `VirtioRing.AckSound` | kernel/virtio_disk.c:255-266 | the handler's next element is a finished request with status 0, and clears that request's buffer |
| `VirtioRing.RetireSound` | kernel/virtio_disk.c:241-249 | freeing a seen request returns its three descriptors |
| `VirtioIo.CarriedOut` | kernel/virtio_disk.c:171-224 | what the device does with a request formatted that way, reading header, data and status descriptor as the standard says, is the transfer of one whole block between that buffer and that place on the disk, in the direction asked for, with status 0 |
| `VirtioIo.MatchedOffer` | kernel/virtio_disk.c:188-234 | a new request stands beside the outstanding ones without disturbing what they ask for |
| `VirtioIo.MatchedRetire` | kernel/virtio_disk.c:245-246 | and so does retiring one |
| `VirtioDisk.Disk.constructor` | kernel/virtio_disk.c:109-110 | all descriptors free, both rings empty, nothing asked for |
| `VirtioDisk.Disk.AllocDesc` | kernel/virtio_disk.c:115-126 | a free descriptor taken, or none is free |
| `VirtioDisk.Disk.AllocThree` | kernel/virtio_disk.c:154-166 | three descriptors exactly when three are free, else none taken |
| `VirtioDisk.Disk.Submit` | kernel/virtio_disk.c:168-238 | a request is offered exactly when fewer than two are outstanding; the device will find it asking for this block, this buffer and this direction, and its buffer is busy |
| `VirtioDisk.Disk.FreeChain` | kernel/virtio_disk.c:142-152 | frees exactly the chain's three descriptors; free_desc cannot panic |
| `VirtioDisk.Disk.Finish` | kernel/virtio_disk.c:241-249 | the request is gone and its descriptors are free; no data moves |
| `VirtioDisk.Disk.Intr` | kernel/virtio_disk.c:251-270 | exactly the finished requests are seen, and exactly their buffers stop being busy |
| `VirtioDisk.Disk.Fetch` | kernel/virtio_disk.c:230-236 | the device takes the oldest offered request |
| `VirtioDisk.Disk.Complete` | kernel/virtio_disk.c:251-270 | any fetched request may finish next; it moves its block the way it was asked to and nothing else, and the status it leaves is the one the handler accepts |
| `VirtioDisk.Transact` | kernel/virtio_disk.c:168-270 | a whole virtio_disk_rw: the block is the buffer's data, or the buffer the block's, and nothing else changes |
| `VirtioDisk.WriteRead` | kernel/virtio_disk.c:168-270 | a block written from one buffer and read into another arrives there |
| `ShellRead.Parses` | user/sh.c:487-614 | every sentence of the shell's syntax, with any blanks before, between and after its tokens, redirections standing anywhere among the arguments, parses to what it means |
| `ShellRead.LaidOut` | user/sh.c:425-469 | gettoken reads the tokens of a line one by one whatever blanks stand between them |
| `ShellRead.ReadItems` | user/sh.c:581-614 | arguments and redirections in any order: the arguments in order, wrapped in the redirections in order |
| `ShellRead.ReadRedirs` | user/sh.c:538-563 | the redirections behind a block in order |
| `ShellRead.ReadSimple` | user/sh.c:565-614 | a simple command or a block in parentheses |
| `ShellRead.ReadPipeline` | user/sh.c:524-536 | pipelines, to the right |
| `ShellRead.ReadJob` | user/sh.c:505-516 | background marks, each around what came before |
| `ShellRead.ReadLine` | user/sh.c:505-522 | lists, to the right |
| `ShellAccept.ParsesExactly` | user/sh.c:487-614 | a line parses if and only if it is a sentence, else the shell panics; and all readings of it as one mean the same tree |
| `ShellAccept.Accepts` | user/sh.c:487-503 | the sentence, its tokens and its blanks, of a line that parses |
| `ShellAccept.Layout` | user/sh.c:425-469 | tokens read to the end of a line account for all of it but blanks, and stand apart where they would run together |
| `ShellAccept.AcceptItems` | user/sh.c:581-614 | what parseexec accepts are at most nine words, and redirections with their files, in any order |
| `ShellAccept.AcceptLine` | user/sh.c:505-522 | what parseline accepts is a sentence |
| `ShellPrint.RoundTrip` | user/sh.c:487-614 | every tree of valid words with at most nine arguments per command has a sentence, with parentheses only where needed, that parses back to it however it is laid out |
| `ShellPrint.WriteMeans` | user/sh.c:487-614 | that sentence means the tree |
| `ShellPrint.ParsedTrees` | user/sh.c:487-614 | a tree comes out of the parser if and only if it is of valid words with at most nine arguments per command |
| `Shell.SkipBlanks` | user/sh.c:431-432 | the next character that is not blank |
| `Shell.Gettoken` | user/sh.c:425-469 | the token of the grammar, its span and the next position, whose readings LaidOut and Layout give |
| `Shell.Peek` | user/sh.c:471-480 | whether the next character is one of those asked for |
| `Shell.Parseredirs` | user/sh.c:538-563 | the loop collects the grammar's redirections, or fails where it does |
| `Shell.Parseexec` | user/sh.c:581-614 | the loop collects the grammar's arguments and redirections, or fails where it does |
| `Shell.Parseblock` | user/sh.c:565-579 | the grammar's block |
| `Shell.Parsepipe` | user/sh.c:524-536 | the grammar's pipeline |
| `Shell.Parseline` | user/sh.c:505-522 | the grammar's line |
| `Shell.Nulterminate` | user/sh.c:616-661 | writes NUL at the end of every word and nowhere else |
| `Shell.LineSpanned` | user/sh.c:505-522 | every word of a parsed line is a maximal run of word characters |
| `Shell.EndsOutside` | user/sh.c:616-661 | no write of nulterminate falls inside a word |
| `Shell.Parsecmd` | user/sh.c:487-503 | goes through exactly if the line is a sentence, and then gives the tree it means with every word terminated in place and none altered; else a panic with the line untouched |
| `Regex.Match` | user/grep.c:71-81 | accepts exactly the texts the pattern describes, from the start after ^ and from any place otherwise |
| `Regex.Matchhere` | user/grep.c:84-95 | accepts exactly the texts the pattern describes from their first character on |
| `Regex.Matchstar` | user/grep.c:98-105 | accepts exactly a run of fitting characters followed by a text of the rest |
| `Regex.StarUnfolds` | user/grep.c:98-105 | a star is nothing, or one more of its character and the star again |
| `Regex.RenderParse` | user/grep.c:84-95 | every string is the one way to write the pattern it stands for |
| `Regex.ParseRenderIff` | user/grep.c:84-95 | writing a pattern and reading it gives it back if and only if it has no bare dot, nothing a following star would bind, and no dollar that would end it |
| `Regex.LiteralLaws` | user/grep.c:71-95 | a word without dot, star and dollar is accepted anywhere in the text, after ^ at its start, before $ at its end, between both only as all of it |
| `Grep.PrintsMatching` | user/grep.c:12-35 | with lines of at most 1023 bytes, newline included, what is printed is exactly the matching newline-terminated lines in order |
| `Grep.PrintsMatchingIff` | user/grep.c:12-35 | what is printed is the matching lines for every pattern if and only if every line fits the buffer |
| `Grep.MatchingLines` | user/grep.c:12-35 | the matching lines of a text are those of its newline-terminated lines that the pattern accepts, in order, and fit the buffer if and only if none has 1023 bytes or more |
| `Grep.StopsAtLongLine` | user/grep.c:17-34 | a longer line ends the output there |
| `Grep.File.Read` | user/grep.c:18 | any piece of the input the limit allows, nothing at the end, or a failure |
| `Grep.Strchr` | user/grep.c:22 | the first newline, or none |
| `Grep.ShowLine` | user/grep.c:23-27 | the line with its newline if it matches, else nothing |
| `Grep.Scan` | user/grep.c:21-29 | the lines in the buffer shown, the start of the last one left |
| `Grep.Shift` | user/grep.c:30-33 | the rest is at the front of the buffer |
| `Grep.Fill` | user/grep.c:18-20 | what was read follows what was there, then NUL |
| `Grep.Run` | user/grep.c:12-35 | the output is a function of what was read, and of the whole input unless a read fails, however read splits it |

## Left out

- FileSystem.Disk.Writei: states contents for writes whose user copies all succeed; after a failed copy the source returns n and may leave a partly changed buffer unlogged (kernel/fs.c:496-513).
- Directories.Inodes.Create: the number ialloc finds is a parameter, and the directory file is taken to have room for one more entry.
- Links.LinkCounts: entries are abstract slots of a directory, not bytes read through readi; path walking (namex, skipelem) is not modelled.
- LogProtocol.OverflowIff: is stated for disks large enough to hold the log and the blocks its counterexample run writes.
- Umalloc.Heap.Malloc: sbrk returns aligned regions above base; what a process does with a block past its memory is not followed further.
- Directories.Inodes.Create: link counts are unbounded, as are those of the other members of `Directories`; `LinkWidth` says when that is the same.
- UserBytes.Copyout: is for addresses below the trapframe, as in exec.
- LogProtocol.CrashSafety: once an installed block has been read or logged the model lets the cache give and log anything; what the code then does is in `ClientRuns` and `LostUpdate`.
- FsCrash.CrashLeavesCommitted: that the durable groups carry the file system's transactions, one or more merged into one, is assumed of the run; how inodes and bits are packed into blocks is a parameter.
- Bio.BufferCache.Bget: buffers start as device 0, so uniqueness is for the one real device; the absence of the "no buffers" panic under concurrent readers is not claimed, since the code does not ensure it.
- LogDevice.Log.Commit: is for a moment when no other process has locked a block of the list; readers of other blocks may hold theirs throughout, but waiting inside commit is not modelled.
- ProcMemory.Exec: whether the header and each program header read are parameters, and so is what readi puts in each page; registers and file descriptors are not modelled.
- ProcMemory.Fork: registers, open files and the choice of a process slot are not modelled.
- Vm.Memory.Mappages: permissions include read access, as in every call the kernel makes.
- Vm.Memory.Uvmunmap: freeing is for user pages, those below the trapframe, as in every call the kernel makes.
- Vm.Memory.Uvmalloc: growproc's truncation of sizes to uint is not modelled.
- ExitWait.NoLostZombie: says nothing of init, of which it is false; pids do not wrap.
- Pipe.Channel.Close: is for the last descriptor of an end, when none of its users is inside the pipe.
- VirtioDisk.Disk.Complete: a device that fails on a proper request, and so the panic on its status, is not modelled.
- LogCalls.Calls.Write: each call runs without others in between; interleavings inside the calls are in `ClientRuns`.
- Shell.Parsecmd: the arguments of runcmd, the splitting of input at semicolons by main and tab completion are not modelled.
- Grep.Run: input without NUL bytes.
- The inode cache (iget, ilock, iupdate, idup): the inodes of `FileSystem` stand for cached and on-disk inode together, since every change is written through with iupdate in the same transaction.
- One state shared by log and file system: log and cache are one object, but the file system is proved on inodes, bitmap and blocks as values; `FsCrash` relates its transactions to the groups of the log, for `filewrite`.
- The kernel's own page table (kvminit, kvmmap, kvmpa), copyin and copyinstr as byte copies, uvminit.
- Spinlocks, sleeplocks, fences and memory ordering: used as mutual exclusion only.
- Liveness and fairness of the scheduler.
- Boot, traps, interrupt controllers, UART, console, printf, and all assembly: registers and hardware.
- kernel/ramdisk.c, user/xargs.c, user/find.c and the small user programs: not built, or plumbing around what is modelled.
