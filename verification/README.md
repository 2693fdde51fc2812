# A verified model of the xv6 kernel in assignment2

This project models the parts of the kernel and its user library that carry hard correctness
properties, and proves those properties: for every input, every interleaving and every crash
point. `dafny verify dfyconfig.toml` checks all of it. `Common` holds the machine's numbers and what
several modules share.

**Storage** (`Blocks`, `BufferCache`, `LogSpec`, `Log`, `CrashSafety`, `Transactions`,
`DiskLayout`, `Ownership`, `BlockMap`, `FileContent`, `Truncate`, `FileSystem`, `FileWrite`, `Mkfs`).
The disk is a sequence of blocks with atomic block writes, and a ghost trace keeps every state it
goes through. On it sit the LRU buffer cache, the redo log, the block allocator, inodes with
direct and indirect blocks, and the chunked write of `filewrite`. A crash is a choice of one disk
state of the trace. The main results are `CrashSafety.Transaction`, `CrashSafety.Reboot`,
`Log.CurrentIsView`, `FileSystem.Writei`, `FileSystem.Itrunc` and, through all layers,
`FileWrite.Filewrite`: whatever the crash point, the file holds whole chunks of a prefix of the
write. Other processes may read blocks between any two block reads of a transaction, in any order
(`Log.RedoLog.Others`). When the no-buffers panic can come is stated at every layer; in recovery it
cannot.

**Semaphores, buffer and bar** (`Semaphores`, `BinarySemaphore`, `CountingSemaphore`,
`SemaphoreStack`, `BoundedBuffer`, `BufferStack`, `KernelBuffer`, `Bar`, `BarJams`). Step systems with any
number of threads, each layer shown to refine the atomic operations the next layer uses: kernel
locks, sleep and queue numbers make atomic binary semaphores; two of these make a counting
semaphore; two counting semaphores and a mutex make a bounded queue; the bar runs on queues.
`SemaphoreStack` and `BufferStack` put two layers together in one machine and show that all its runs
are runs of the upper layer on atomic operations; `KernelBuffer` does it for the buffer, its
counting semaphores and the kernel at once. One step is one lock operation, one load or one store.
Beside safety there is what each operation gives to whom: which waiter an up wakes, which item a pop
returns, and what can stop everybody: nothing but an empty or a full buffer, a value of 0, or, in
the bar, more than B + 4/10 C places, shown both ways (`BarJams.JamsExactly`).

**Sleep and wakeup** (`SleepWakeup`). No wakeup is lost and none reaches another channel, for any
number of processes, channels and locks, with `wakeup1`'s loop taken one process at a time and kills
at any moment.

**User heap** (`Heap`). The circular first-fit allocator of section 8.7 of The C Programming
Language, 2nd edition, on header fields and a ghost ring, with termination of all its loops.

**Frames and page tables** (`PageTables`, `Paging`). The free list threaded through the frames,
and two-level tables as in section 4.3 of the Intel Software Developer's Manual, Volume 3A. Every
frame has exactly one use; the exact condition under which `deallocuvm`'s jump over missing tables
is harmless is proved both ways, and so is how many free frames `setupkvm`, `allocuvm` and `copyuvm`
need. What every page of the kernel's half maps to is stated page by page.

**Shell parser** (`ShellSyntax`, `ShellLexemes`, `ShellGrammar`, `ShellRoundTrip`, `ShellWords`,
`Shell`). The recursive descent as functions, the parser's loops shown to compute them, and a
grammar of its own beside them, from forms down to words, symbols and blanks: the parser accepts
exactly the lines the grammar writes and gives their trees (`ShellRoundTrip.Exactly`). Then the NUL
terminators written into the line.

**Pipe and grep** (`Pipe`, `Grep`). The ring with wrapping 32-bit counters under any interleaving,
and the matcher of chapter 9 of The Practice of Programming against a declarative meaning.

## How to read it

- A class models what the source updates in place; its `Valid` is the invariant, its ghost fields
  say what the real ones stand for, and arrays that the source embeds in structures are sequences
  that the methods reassign. Interleaved code is a state and a step relation; theorems about it
  speak of every state of every `Run`.
- A panic is an outcome (`Outcome`, `Result`), not a precondition. A sleep is an outcome too, or a
  step that waits for its guard.
- `BufferCache.Cache.Brelse` and `Bwrite` ask of their callers what the interface rules at the top of
  bio.c ask (assignment2/bio.c:8-14): only the holder uses a buffer, and changes are written, or
  logged, before it is given back.
- `Cache.holder`, `RedoLog.owner` and `RedoLog.recovering` record who holds which buffer, whose
  transaction is open and whether the system is booting; the source keeps none of them.
- `Good`, `Ready` and `FsOk` describe a well-formed file system: superblock and geometry agree,
  the blocks before the data region are marked in use, every block is in at most one slot, and
  files have no holes below their size. A disk as `mkfs` lays it out, before anything is put on it, has
  these properties (`Mkfs.NewDisk`), and every operation keeps them, `mkfs`'s own taking of an inode
  included (`Mkfs.Ialloc`). `mkfs` leaves the log's own blocks marked free
  (assignment2/mkfs.c:229-242) while `balloc` searches up to the end of the disk
  (assignment2/fs.c:61-63), so `balloc` can find a free block inside the log region; `Balloc` then
  ends with the outcome `IntoLog`, shown to occur only when all data blocks are in use.
- Where the documentation and the code disagree the code is followed: `fs.h` says inode blocks end
  at ninodes/IPB, the code's arithmetic (assignment2/fs.h:40-46) is used; `>>` opens its file as
  `>` does (assignment2/sh.c:389-394).

## Model

| member | source | states |
|---|---|---|
| `Blocks.SetWord` | assignment2/log.c:107-110 | storing one 32-bit word of a block: that word reads back, every other word of the block is kept |
| `Blocks.FlipBitOk` | assignment2/fs.c:64-66 | setting or clearing one bit of a bitmap block changes that bit and no other of the 4096 |
| `Blocks.BitShifted` | assignment2/fs.c:64-65 | bit k of a byte is the lowest bit of the byte shifted right by k |
| `LruRing.RingRemove` | assignment2/bio.c:127-128 | unlinking a buffer leaves one prev/next cycle over the head and the remaining buffers, in the same order |
| `LruRing.RingPush` | assignment2/bio.c:129-132 | linking a buffer in behind the head gives one prev/next cycle with it in front |
| `BufferCache.UpdateOk` | assignment2/bio.c:72-75 | a buffer may change hands or contents without changing which buffer caches which sector, or what any other sector holds |
| `BufferCache.RecycleOk` | assignment2/bio.c:83-90 | recycling a clean idle buffer keeps one buffer per sector and loses no contents: every sector reads as before |
| `BufferCache.ListFront` | assignment2/bio.c:127-132 | the six pointer stores of brelse keep one ring, ordered by time of release |
| `BufferCache.Cache.constructor` | assignment2/bio.c:38-56 | binit leaves one ring over all buffers, none of them caching anything |
| `BufferCache.Cache.FindCached` | assignment2/bio.c:70-80 | the search forward along the ring ends and finds the one buffer that caches the sector, if there is one |
| `BufferCache.Cache.FindVictim` | assignment2/bio.c:83-91 | the search backward ends and finds the least recently released buffer that is neither busy nor dirty, if there is one |
| `BufferCache.Cache.Recycle` | assignment2/bio.c:85-89 | the recycled buffer now caches the sector, no other buffer does, and all contents are as before |
| `BufferCache.Cache.Bget` | assignment2/bio.c:61-93 | one pass: the idle buffer of the sector, a sleep when its holder has it, the least recently released clean buffer, or the panic exactly when all are busy or dirty |
| `BufferCache.Cache.Iderw` | assignment2/memide.c:36-58 | a dirty buffer is written to its sector and becomes clean, one that is not valid gets the sector's contents, and every sector reads as before; the panics exactly for a buffer that is not busy, has nothing to do or lies beyond the disk |
| `BufferCache.Cache.Bread` | assignment2/bio.c:96-105 | the buffer holds the newest contents of the sector: the cached copy if there is one, else the disk |
| `BufferCache.Cache.Bwrite` | assignment2/bio.c:108-115 | one atomic block write, after which the disk has the contents and the buffer is clean; no other sector changes; the panic exactly for a buffer nobody holds |
| `BufferCache.Cache.MoveToFront` | assignment2/bio.c:127-132 | the buffer becomes the most recently released, the others keep their order |
| `BufferCache.Cache.Brelse` | assignment2/bio.c:119-138 | the holder gives the buffer back; ring, uniqueness and all contents are kept; the panic exactly for a buffer nobody holds |
| `LogSpec.InstallAt` | assignment2/log.c:74-81 | after the copies a listed sector holds the block logged for it and every other sector what it held before |
| `LogSpec.InstallStep` | assignment2/log.c:74-81 | overwriting a sector the header lists does not change what recovery produces |
| `LogSpec.EmptyLog` | assignment2/log.c:115-122 | with an empty header recovery leaves home alone, whatever the log region holds |
| `LogSpec.CopiedRecovers` | assignment2/log.c:115-122 | a disk on which recovery was cut short after any number of copies recovers to the same home |
| `LogSpec.PassesRecovers` | assignment2/log.c:115-122 | every disk state that recovery passes through recovers to the same home |
| `LogSpec.RepeatedCrashes` | assignment2/log.c:115-122 | however often recovery is cut short and started again, the next full recovery gives the same home |
| `Log.CurrentIsView` | assignment2/log.c:159-181 | overlay: whatever has been recycled, every home sector reads as last logged in the transaction, or else as last committed |
| `Log.HeadRecovers` | assignment2/log.c:101-113 | once the header is on disk, recovery gives home as the running system sees it |
| `Log.KeepInv` | assignment2/bio.c:61-138 | other processes taking and giving back unchanged buffers cannot break the log |
| `Log.FullCrowded` | assignment2/bio.c:83-92 | bget has nothing to recycle only when the buffers held and the blocks logged so far take up all NBUF |
| `Log.RoomForLog` | assignment2/log.c:173-177 | while a log block is in the cache fewer than NBUF blocks are pinned, so ten distinct blocks are never logged |
| `Log.InstalledInv` | assignment2/log.c:74-81 | one turn of install_trans keeps the invariant with one more block at home |
| `Log.LoggedInv` | assignment2/log.c:173-180 | log_write keeps the invariant: the block is pinned in the cache with the logged contents |
| `Log.RedoLog.Boot` | assignment2/log.c:53-66 | after a crash memory is empty and the disk is as it was left |
| `Log.RedoLog.ReaderStep` | assignment2/bio.c:96-138 | a bread or brelse by any other process, and none during recovery, leaves all that the transaction depends on as it was |
| `Log.RedoLog.Others` | assignment2/bio.c:96-138 | any sequence of such steps does too: the committed home, every past disk state and all the transaction holds are as they were |
| `Log.RedoLog.Bread` | assignment2/bio.c:96-105 | inside a transaction, after any steps of other processes, bread returns the newest contents; it panics for want of buffers only when every buffer is held or pinned and the sector is not cached, and never in recovery while a buffer is left |
| `Log.RedoLog.BeginTrans` | assignment2/log.c:124-133 | one transaction at a time; the caller sleeps exactly while the log is busy |
| `Log.RedoLog.FindSlot` | assignment2/log.c:169-173 | the slot of the sector if it is already logged, else the first free one |
| `Log.RedoLog.LogWrite` | assignment2/log.c:159-181 | the new contents are visible from now on, no home sector is written, every disk state still recovers to the old home; the panics exactly when the transaction is too big or none is open, and for want of buffers only when what is held and logged fills the cache; n stays below NBUF |
| `Log.RedoLog.Record` | assignment2/log.c:173-180 | log block i has the contents, the header counts it, the buffer is pinned, and one block write was made |
| `Log.RedoLog.Head` | assignment2/log.c:107-110 | the header block lists exactly the logged sectors |
| `Log.RedoLog.WriteHead` | assignment2/log.c:101-113 | one block write that makes home as the running system sees it the committed state; no panic in recovery |
| `Log.RedoLog.FetchPair` | assignment2/log.c:75-76 | holds the logged block and its home block; in recovery always, otherwise unless other processes hold too many buffers |
| `Log.RedoLog.InstallOne` | assignment2/log.c:75-80 | one logged block goes home; the disk recovers to the committed home before and after; no panic in recovery |
| `Log.RedoLog.InstallTrans` | assignment2/log.c:69-82 | all logged blocks go home, and at no moment would recovery end elsewhere; no panic in recovery |
| `Log.RedoLog.CommitTrans` | assignment2/log.c:135-149 | the first write is the header; from it on every disk state recovers to the new home, and at the end home on disk is the new home and the log is empty; it panics only when other processes hold too many buffers |
| `Log.RedoLog.ReadHead` | assignment2/log.c:85-96 | always ends, and the in-memory header is what the disk lists |
| `Log.RedoLog.RecoverFromLog` | assignment2/log.c:115-122 | always ends well: home is what was committed when the disk was left; every disk state on the way recovers to the same; the no-buffers panic is unreachable |
| `Log.RedoLog.ModifyAndLog` | assignment2/log.c:151-181 | changing a held block and logging it changes just that block of what the system sees |
| `CrashSafety.LoggedWrite` | assignment2/log.c:151-181 | bread, change, log_write, brelse as one write of a transaction, and exactly when it can fail |
| `CrashSafety.LogAll` | assignment2/log.c:159-181 | after any sequence of logged writes the system sees them all and every disk state recovers to the home before; n is the number of different sectors |
| `CrashSafety.Transaction` | assignment2/log.c:124-181 | crash atomicity: for every sequence of logged writes every disk state recovers to the old home before the commit record and to the home with the last contents of every written block from it on; it fails only if the different blocks are LOGSIZE or more or nlog - 1 or more, or if they, the buffers other processes hold and one more fill the cache; NBUF different blocks never get through |
| `CrashSafety.Reboot` | assignment2/log.c:53-122 | a crash at any disk state of a run, and the reboot: recovery always ends, the system comes up with what had been committed then, and recovery may itself be cut short anywhere |
| `Transactions.Store.Begin` | assignment2/log.c:124-133 | a transaction sees the committed home and has logged nothing |
| `Transactions.Store.Bread` | assignment2/bio.c:96-105 | the newest contents of the block; the no-buffers panic only if what is held, logged and held by others fills the cache |
| `Transactions.Store.LogWrite` | assignment2/log.c:159-181 | the set of logged blocks grows by this one; the too-big panic comes exactly when that set has LOGSIZE or nlog - 1 members already; the no-buffers panic as for reading |
| `Transactions.Store.Brelse` | assignment2/bio.c:119-138 | the block is no longer held and all else is as before |
| `Transactions.Store.Commit` | assignment2/log.c:135-149 | what the transaction sees is committed, atomically for every crash |
| `DiskLayout.EncodeDecode` | assignment2/fs.c:201-217 | an inode stored by iupdate is read back by ilock as it was, and the other inodes of the block are untouched (which bytes hold which field: see InodeBytes) |
| `DiskLayout.InodeBytes` | assignment2/fs.h:26-34 | in slot k type, major, minor and nlink are the little-endian halfwords at bytes 64k, +2, +4 and +6, the size is the word at +8 and the addresses are the words from +12 on |
| `DiskLayout.IndirectBytes` | assignment2/fs.c:373-379 | the indirect block lists its blocks as little-endian words from byte 0 on |
| `LogSpec.HeadBytes` | assignment2/log.c:36-39 | the log header has its count at byte 0 and its sectors from byte 4 on |
| `Ownership.FlipUsed` | assignment2/fs.c:64-66 | marking or unmarking one block changes no other mark, across bitmap blocks |
| `Ownership.MarkOk` | assignment2/fs.c:61-72 | a clear bit before the log belongs to a data block nobody owns, and setting it keeps ownership |
| `Ownership.UnmarkOk` | assignment2/fs.c:86-94 | clearing the bit of a block in nobody's slot keeps ownership and all other marks |
| `Ownership.AttachDirect` | assignment2/fs.c:362-372 | putting a fresh block into an empty slot of an inode keeps each block in at most one slot |
| `Ownership.AttachIndirect` | assignment2/fs.c:373-378 | the same for an entry of the indirect block |
| `Ownership.DetachOk` | assignment2/fs.c:398-416 | emptying slots of an inode leaves what was in them used and nobody's |
| `BlockMap.AllocatedOk` | assignment2/fs.c:52-76 | the lowest free block, marked and zeroed, is nobody's and no file changes |
| `BlockMap.GrewDirect` | assignment2/fs.c:362-372 | an allocated block in a direct or the indirect slot leaves full slots and everyone's contents alone |
| `BlockMap.GrewIndirect` | assignment2/fs.c:373-378 | an allocated block in the indirect block does too |
| `FileContent.GrewContent` | assignment2/fs.c:356-384 | bmap changes no byte of any file |
| `FileContent.PokeOk` | assignment2/fs.c:480-484 | writing a data block of one inode keeps ownership |
| `FileContent.PokeOthers` | assignment2/fs.c:480-484 | and changes no other inode's bytes |
| `FileContent.UpdateOk` | assignment2/fs.c:201-217 | after iupdate every inode on disk is the one in use |
| `FileContent.WrittenSplice` | assignment2/fs.c:479-491 | a finished write is a splice: [off, off+n) overwritten or the file extended |
| `FileContent.StepOk` | assignment2/fs.c:479-485 | one turn of the loop, bmap and memmove, keeps ownership and puts its piece at its offset |
| `FileContent.ProgressStep` | assignment2/fs.c:479-485 | the pieces so far form one longer write, across the direct/indirect boundary |
| `FileContent.WroteBeyond` | assignment2/fs.c:487-490 | a write past the end raises the size and the bytes below it are the spliced file |
| `FileContent.WroteInside` | assignment2/fs.c:487-491 | a write within the file needs no iupdate |
| `Truncate.DirectFree` | assignment2/fs.c:398-403 | freeing a direct block keeps ownership: it was the inode's alone |
| `Truncate.ListingFree` | assignment2/fs.c:408-411 | freeing a listed block does too, while the indirect block waits |
| `Truncate.TruncateDone` | assignment2/fs.c:391-419 | exactly the inode's own blocks are free again, its file is empty, all other files are as before |
| `FileSystem.FileSystem.Readsb` | assignment2/fs.c:26-35 | the superblock as it is on disk |
| `FileSystem.FileSystem.ScanBits` | assignment2/fs.c:63-65 | the first clear bit of a bitmap block that stands for an existing block |
| `FileSystem.FileSystem.ScanBlock` | assignment2/fs.c:61-74 | one bitmap block searched: everything below the result is in use |
| `FileSystem.FileSystem.Balloc` | assignment2/fs.c:52-76 | the lowest free block, marked, zeroed and nobody's; out of blocks only when all are used; into the log region only when all data blocks are used and a block of the log is marked free, and then always unless the buffers run out |
| `FileSystem.FileSystem.Claim` | assignment2/fs.c:66-70 | marking and zeroing logs exactly the bitmap block and the block |
| `FileSystem.FileSystem.FillDirect` | assignment2/fs.c:362-372 | a missing direct or indirect block is allocated, a present one kept |
| `FileSystem.FileSystem.FillIndirect` | assignment2/fs.c:373-379 | a missing entry of the indirect block is allocated and logged, a present one kept |
| `FileSystem.FileSystem.Bmap` | assignment2/fs.c:356-384 | the block behind position bn, allocated on demand; no file changes; out of range exactly from MAXFILE on |
| `FileSystem.FileSystem.WriteBlock` | assignment2/fs.c:480-484 | one piece goes to its place in its block and nowhere else |
| `FileSystem.FileSystem.Iload` | assignment2/fs.c:283-296 | the inode read is the one on disk, field by field as iupdate or mkfs stored it; the panic exactly for type 0 |
| `FileSystem.FileSystem.Iupdate` | assignment2/fs.c:201-217 | the inode is stored, every file keeps its bytes |
| `FileSystem.FileSystem.WriteLoop` | assignment2/fs.c:479-485 | the loop ends with exactly the given bytes in place and logs only the bitmap, one indirect block and the blocks written |
| `FileSystem.FileSystem.Writei` | assignment2/fs.c:462-492 | file refinement: the file becomes the old one spliced with the bytes at off, every other file is unchanged, the disk has all inodes; fails exactly for an offset beyond the end or an end beyond MAXFILE blocks |
| `FileSystem.FileSystem.Readi` | assignment2/fs.c:434-458 | exactly the requested slice of the file, cut at its end; nothing is allocated or logged |
| `FileSystem.FileSystem.Bfree` | assignment2/fs.c:79-95 | just that block is marked free; the panic only for a block that is free already |
| `FileSystem.FileSystem.FreeDirect` | assignment2/fs.c:398-403 | the direct blocks are freed and the slots emptied, without the panic |
| `FileSystem.FileSystem.FreeListed` | assignment2/fs.c:408-411 | every listed block is freed once, without the panic |
| `FileSystem.FileSystem.FreeIndirect` | assignment2/fs.c:405-415 | the listed blocks and the indirect block are freed |
| `FileSystem.FileSystem.Itrunc` | assignment2/fs.c:391-419 | exactly the inode's own blocks are freed, the file is empty on disk and in memory, no other file changes, "freeing free block" is not reached |
| `Mkfs.Balloc` | assignment2/mkfs.c:228-242 | the loop sets the first used bits of the bitmap block and no other |
| `Mkfs.ImageUsed` | assignment2/mkfs.c:92-99 | on a new disk a block is marked exactly if it is among the first used |
| `Mkfs.NewDisk` | assignment2/mkfs.c:80-99 | a new disk of any geometry on which no inode is in use yet satisfies the invariant that every file-system operation keeps; the blocks of its log are not marked |
| `Mkfs.SuperBlock` | assignment2/mkfs.c:81-100 | the superblock as mkfs lays it out byte by byte is the one readsb reads |
| `Mkfs.NewSlot` | assignment2/mkfs.c:214-226 | the 64 bytes that mkfs stores for a new inode are those that iupdate would store for an empty file of that type with one link |
| `Mkfs.Ialloc` | assignment2/mkfs.c:174-226 | after mkfs's ialloc the kernel reads an empty file of that type with one link, every other inode and mark as before, and the invariant of the file system holds |
| `Mkfs.FullDisk` | assignment2/mkfs.c:229-242 | a new disk whose marked blocks reach up to the log: all data blocks are in use and a log block is free, the state in which balloc goes into the log |
| `FileWrite.SmallTransaction` | assignment2/file.c:126-132 | for every offset, one chunk logs at most 7 distinct blocks when the bitmap fits one block |
| `FileWrite.WroteTwice` | assignment2/file.c:134-151 | a write followed by one that starts where it ended is one write |
| `FileWrite.PrefixStep` | assignment2/file.c:134-151 | chunk by chunk no disk state recovers to anything but whole chunks of the write, in order |
| `FileWrite.Transact` | assignment2/file.c:139-143 | one transaction that writes one chunk; "too big a transaction" is unreachable with 9 or more log blocks and one bitmap block, and so is "no buffers" while no other process holds a buffer |
| `FileWrite.WriteChunk` | assignment2/file.c:139-150 | every disk state on the way recovers to home without the chunk or with all of it |
| `FileWrite.Filewrite` | assignment2/file.c:125-153 | the chunks together write exactly n bytes in order; a crash at any moment leaves whole chunks of a prefix; -1 only when the range does not fit the file, after exactly the chunks that do; with one bitmap block the log is never overrun and the cache runs out only if other processes hold buffers |
| `BinarySemaphore.SemTable.Create` | assignment2/proc.c:656-676 | the first free identifier, or -1 exactly when all 128 are taken |
| `BinarySemaphore.DownOk` | assignment2/proc.c:678-711 | every step of down, sleeping included, keeps the invariant |
| `BinarySemaphore.UpOk` | assignment2/proc.c:713-746 | every step of up, each turn of its loop included, keeps the invariant: locks, places and turns (which waiter it wakes: see NoneForgotten) |
| `BinarySemaphore.KillOk` | assignment2/proc.c:469-489 | a kill that wakes a waiter early keeps the invariant |
| `BinarySemaphore.RunSafe` | assignment2/proc.c:678-746 | in every state of every run, for any number of processes and semaphores: each spin lock has one holder, and a waiter's place is its number less the ups since |
| `BinarySemaphore.Refines` | assignment2/proc.c:678-746 | down and up are atomic: a value changes only from nonzero to 0 by a down past its tests or to 1 by an up, and only such a down returns 0 |
| `BinarySemaphore.NeverTooMany` | assignment2/proc.c:678-746 | in every run the downs that got through never outnumber the ups plus the initial unit |
| `BinarySemaphore.PassesInTurn` | assignment2/proc.c:689-699 | a waiter passes its test exactly when the value is nonzero and as many ups have come as the number it drew |
| `BinarySemaphore.RunTurns` | assignment2/proc.c:683-699 | in every run no two waiters of a semaphore have the same turn, so no up is the turn of two |
| `BinarySemaphore.RunFilled` | assignment2/proc.c:683-699 | in every run the turns still to come have no gap: each number up to the last one drawn is some waiter's |
| `BinarySemaphore.NoBarging` | assignment2/proc.c:683-699 | in every run, a process that gets through without a number does so while nobody waits for a turn |
| `BinarySemaphore.RunWakes` | assignment2/proc.c:713-746 | in every run: no process goes to sleep at place 0, the waiter an up has found is at place 0 and no other is, and whoever is asleep at place 0 has an up under way that has found it |
| `BinarySemaphore.NoneForgotten` | assignment2/proc.c:713-746 | in every run, a process asleep on a semaphore whose turn has come has an up on that semaphore under way that is going to wake exactly it |
| `BinarySemaphore.WokenInTurn` | assignment2/proc.c:736-739 | in every run a sleeper is woken only by a kill of it, or by an up on its semaphore that found it at place 0 |
| `BinarySemaphore.SleepsOn` | assignment2/proc.c:409-442 | in every run a process goes nowhere while it is asleep |
| `BinarySemaphore.RunAnswers` | assignment2/proc.c:678-746 | in every run down and up return success exactly if there is such a semaphore, and one that was not created is never changed |
| `BinarySemaphore.OvertakenWhen` | assignment2/proc.c:724-732 | a waiter's place falls below 0 exactly when an up's loop finds it at 0 already |
| `BinarySemaphore.NeverReturns` | assignment2/proc.c:685-710 | a waiter whose place is below 0 stays in its down in every continuation of the run |
| `BinarySemaphore.Starves` | assignment2/proc.c:724-738 | a run of 20 steps with two processes in which a second up, begun before the woken waiter runs, overtakes it; the waiter never returns in any continuation |
| `CountingSemaphore.Create` | assignment2/semaphore.c:3-22 | succeeds exactly when two binary semaphores are free, with the mutex at 1 and the gate at min(1, initial), and touches no other |
| `CountingSemaphore.CreateSafe` | assignment2/semaphore.c:3-22 | the invariant holds of a new semaphore if and only if its initial value is not negative |
| `CountingSemaphore.DownSafe` | assignment2/semaphore.c:24-33 | every step of down keeps the invariant |
| `CountingSemaphore.UpSafe` | assignment2/semaphore.c:35-43 | every step of up keeps the invariant |
| `CountingSemaphore.RunSafe` | assignment2/semaphore.c:24-43 | the invariant in every state of every run, for any number of threads |
| `CountingSemaphore.Accounted` | assignment2/semaphore.c:24-43 | value is initial + increments - decrements and not negative; one holder of s1; with s1 free, value is positive exactly when s2 is open or one thread is past it, never both |
| `CountingSemaphore.Refines` | assignment2/semaphore.c:24-43 | the two binary semaphores make an atomic counting one: value falls only by a down that found it positive and rises only by an up |
| `CountingSemaphore.NoDeadlock` | assignment2/semaphore.c:24-43 | whenever no thread can go on, every thread is at the beginning of a down and the value is 0 |
| `CountingSemaphore.NegativeStart` | assignment2/semaphore.c:10-14 | with any negative initial value a run exists in which a down takes a unit that is not there |
| `SemaphoreStack.InsideRefines` | assignment2/proc.c:678-746 | a step of the kernel inside a thread's binary down or up is the atomic operation when it stores the value, and no step otherwise |
| `SemaphoreStack.StepRefines` | assignment2/semaphore.c:24-43 | every step of the counting semaphore on the kernel's own binary ones is a step of the construction on atomic ones, or none |
| `SemaphoreStack.RunRefines` | assignment2/semaphore.c:24-43 | every state of every run of that stack, queues, sleeps and kills included, is one the atomic construction reaches |
| `SemaphoreStack.StackSafe` | assignment2/semaphore.c:24-43 | so for the real stack value is initial + increments - decrements and never negative, and the invariant of the gate and the mutex holds |
| `BoundedBuffer.SlotNext` | assignment2/boundedbuffer.c:29-30 | adding one and taking the remainder goes to the next slot of the ring |
| `BoundedBuffer.CountedPut` | assignment2/boundedbuffer.c:23-33 | every step of put keeps each item and each free slot counted by a semaphore or promised to one thread |
| `BoundedBuffer.CountedPop` | assignment2/boundedbuffer.c:35-48 | every step of pop does too |
| `BoundedBuffer.WriteOk` | assignment2/boundedbuffer.c:28 | a store goes to an empty slot, never over an item that waits |
| `BoundedBuffer.ReadOk` | assignment2/boundedbuffer.c:41 | a load finds the oldest waiting item, never an empty slot |
| `BoundedBuffer.ClearOk` | assignment2/boundedbuffer.c:42 | clearing the slot just read touches no waiting item |
| `BoundedBuffer.RunSafe` | assignment2/boundedbuffer.c:23-48 | the invariant in every state of every run, for any capacity and any number of threads |
| `BoundedBuffer.Correct` | assignment2/boundedbuffer.c:23-48 | items popped are a prefix of items put; no more wait than the capacity, each in its slot; no access leaves the array and no division is by 0 |
| `BoundedBuffer.Refines` | assignment2/boundedbuffer.c:23-48 | the buffer is an atomic bounded queue: its contents change only when a put appends its item, with room for it, or a pop takes the oldest into its hands (what is then returned: see Returned) |
| `BoundedBuffer.Returned` | assignment2/boundedbuffer.c:35-48 | in every run, whatever a thread holds between its load and its return is the item that its own load took off the front of the queue, and nothing else happened to it since |
| `BoundedBuffer.Offered` | assignment2/boundedbuffer.c:23-33 | in every run, the item a thread has still to store is the one its caller passed, and the store puts just that at the end of the queue |
| `BoundedBuffer.NoDeadlock` | assignment2/boundedbuffer.c:23-48 | whenever no thread can go on, every thread is putting into a full buffer or popping from an empty one |
| `BufferStack.CallStep` | assignment2/semaphore.c:24-43 | a step inside a call on a counting semaphore is the atomic down or up when it stores the value, and none otherwise |
| `BufferStack.StepRefines` | assignment2/boundedbuffer.c:23-48 | every step of the buffer on counting semaphores as they are made is a step of the buffer on atomic ones, or none |
| `BufferStack.RunRefines` | assignment2/boundedbuffer.c:23-48 | every state of every run of that stack is one the buffer on atomic semaphores reaches |
| `BufferStack.StackCorrect` | assignment2/boundedbuffer.c:23-48 | so for the real stack items come out in the order they went in, no more wait than there are slots, and each waits in its slot |
| `BufferStack.Returned` | assignment2/boundedbuffer.c:35-48 | on counting semaphores as they are made, too, the item returned is the one this pop took off the queue |
| `BufferStack.Offered` | assignment2/boundedbuffer.c:23-33 | and the item stored is the one passed |
| `KernelBuffer.OpStep` | assignment2/semaphore.c:24-43 | the binary operation that a thread in the buffer or in one of its counting semaphores comes to, done at once, is a step of the stack above |
| `KernelBuffer.KernelStep` | assignment2/proc.c:678-746 | a step in the kernel stores the value by an atomic down or up, or changes no value and is not seen above |
| `KernelBuffer.StepRefines` | assignment2/boundedbuffer.c:23-48 | every step of the buffer on five of the kernel's semaphores is a step of the buffer on counting ones made of atomic binary ones, or none |
| `KernelBuffer.RunRefines` | assignment2/boundedbuffer.c:23-48 | every state of every run of the whole stack, sleeps and kills included, is one the stack above reaches |
| `KernelBuffer.KernelCorrect` | assignment2/boundedbuffer.c:23-48 | so on the kernel's own semaphores items come out in the order they went in, no more wait than there are slots, and each waits in its slot |
| `KernelBuffer.Returned` | assignment2/boundedbuffer.c:35-48 | on the kernel's own semaphores, too, the item returned is the one this pop took off the queue |
| `KernelBuffer.Offered` | assignment2/boundedbuffer.c:23-33 | and the item stored is the one passed |
| `Bar.StudentCups` | assignment2/bienstein.c:115-141 | no step of a student makes, loses or copies a cup |
| `Bar.BartenderCups` | assignment2/bienstein.c:143-173 | nor does one of a bartender |
| `Bar.BoyCups` | assignment2/bienstein.c:175-194 | nor does one of the cup boy |
| `Bar.RunSafe` | assignment2/bienstein.c:115-194 | in every run with any numbers of students, bartenders, places and cups: each cup is in exactly one place, and orders not yet served equal thirsty students |
| `Bar.Orderly` | assignment2/bienstein.c:15-63 | at most M students are in the bar; the cup boy never waits for a dirty cup; nobody ever waits to put a cup into the clean or the dirty buffer |
| `Bar.HadDrinks` | assignment2/bienstein.c:115-141 | in every run a student's count is of the drinks it took, and it leaves having taken exactly tid mod 5 |
| `Bar.DozesWell` | assignment2/bienstein.c:162-192 | in every run with the full semaphore exact: while the cup boy dozes uncalled and no bartender has still to look, fewer than 6 in 10 cups are dirty |
| `Bar.CallsExactly` | assignment2/bienstein.c:162-168 | a bartender calls exactly if at least 6 in 10 cups are dirty when it looks |
| `Bar.WakesWhenCalled` | assignment2/bienstein.c:167-191 | in every run the cup boy wakes once at the start and then once for each call that finds him uncalled |
| `BarJams.NeverJams` | assignment2/bienstein.c:115-194 | with 10 M at most 10 B + 4 C no run comes to a standstill with students left |
| `BarJams.CanJam` | assignment2/bienstein.c:115-194 | with 10 M more than 10 B + 4 C some run does: all bartenders wait for a clean cup, and the cups are dirty, in hands or in actions nobody takes |
| `BarJams.JamsExactly` | assignment2/bienstein.c:115-194 | so, for every number of places, actions, cups and bartenders, a standstill can be reached if and only if one of them is 0 or 10 M is more than 10 B + 4 C |
| `BarJams.ShippedNeverJams` | assignment2/con.conf:1-5 | the shipped configuration comes to no standstill |
| `SleepWakeup.ScanWakes` | assignment2/proc.c:447-455 | wakeup1's turn at a process asleep on the channel wakes it |
| `SleepWakeup.OtherNotLost` | assignment2/proc.c:447-464 | a condition comes true only with a waker that has yet to look at every sleeper |
| `SleepWakeup.MoverNotLost` | assignment2/proc.c:409-442 | a process goes to sleep only with the condition false or a waker coming |
| `SleepWakeup.InvStep` | assignment2/proc.c:409-464 | every step of sleep, wakeup and kill keeps the invariant, for locks shared between channels and for the process table's own |
| `SleepWakeup.NoLostWakeup` | assignment2/proc.c:409-464 | in every run, for any number of processes, channels and locks, whoever is SLEEPING while its condition holds has a waker that has not yet looked at it |
| `SleepWakeup.WokenExactly` | assignment2/proc.c:447-489 | in every run a sleeper wakes at a step if and only if it is the turn at it of a wakeup on its own channel, or a kill of it |
| `SleepWakeup.WaitsWell` | assignment2/proc.c:409-442 | in every run whoever has waited for a condition goes on only with it true and its lock held, however it was woken |
| `SleepWakeup.SetReaches` | assignment2/proc.c:447-464 | whoever brings a condition about leaves it true and with a waker for everyone who sleeps on it |
| `HeapBlocks.JoinTiles` | assignment2/umalloc.c:33-42 | joining two blocks that meet keeps every unit in exactly one block |
| `HeapBlocks.CutTiles` | assignment2/umalloc.c:79-81 | so does cutting units off the upper end of a block |
| `HeapBlocks.ExtendTiles` | assignment2/umalloc.c:54-58 | and new memory as one more block |
| `Heap.InsertOk` | assignment2/umalloc.c:37-42 | linking a block in at its place keeps the address-ordered ring with a single wrap |
| `Heap.MergeOk` | assignment2/umalloc.c:33-40 | joining neighbours on the ring keeps it too |
| `Heap.UpperOk` | assignment2/umalloc.c:33-37 | free's first half links the block and joins it to the one above exactly when they meet |
| `Heap.LowerOk` | assignment2/umalloc.c:38-42 | its second half joins it to the one below exactly when they meet; no two neighbours then meet |
| `Heap.SearchStep` | assignment2/umalloc.c:30-32 | free's search stops at the block's place and nowhere else, and otherwise comes nearer to it |
| `Heap.UnlinkOk` | assignment2/umalloc.c:76-77 | a block handed out whole leaves a well-formed ring |
| `Heap.CarveOk` | assignment2/umalloc.c:78-82 | a block cut off the end of a free one does too |
| `Heap.Partition` | assignment2/umalloc.c:24-90 | free and live blocks exactly tile the units obtained; live blocks are disjoint; no two free blocks are adjacent |
| `Heap.NeededEnough` | assignment2/umalloc.c:69 | the block is large enough if and only if nbytes + 7 does not wrap round 32 bits, and never a unit larger than it must be |
| `Heap.RequestProper` | assignment2/umalloc.c:52-54 | sbrk is asked for what morecore means if and only if that is below 2^28 units |
| `Heap.GrantedAll` | assignment2/umalloc.c:52-58 | the units that morecore puts on the heap are those sbrk gave if and only if the request is below 2^28 units |
| `Heap.RequestWraps` | assignment2/umalloc.c:52-54 | the largest request wraps round to sbrk(0) |
| `Heap.Allocator.constructor` | assignment2/umalloc.c:21-22 | nothing is live and nothing obtained |
| `Heap.Allocator.Splice` | assignment2/umalloc.c:33-43 | the block is on the ring, joined to its neighbours; what was live but for it still is; no unit is gained or lost |
| `Heap.Allocator.Free` | assignment2/umalloc.c:24-44 | on any live block: the search ends, just that block stops being live, the heap is well formed |
| `Heap.Allocator.Morecore` | assignment2/umalloc.c:46-61 | a refused sbrk changes nothing; otherwise the new units, at least 4096, are free and the next search finds room; what sbrk really gave is recorded, for requests that wrap round too |
| `Heap.Allocator.TakeWhole` | assignment2/umalloc.c:76-77 | an exact fit is unlinked and live |
| `Heap.Allocator.TakePart` | assignment2/umalloc.c:78-82 | the upper end of a larger block is live, the rest stays free |
| `Heap.Allocator.Search` | assignment2/umalloc.c:74-89 | the loop ends, with the first fit after freep; sbrk is asked once at most and only when nothing fits |
| `Heap.Allocator.Malloc` | assignment2/umalloc.c:63-90 | a block of the units needed, live now and not before, disjoint from all live blocks, the first fit after freep, which moves to the block before it; 0 exactly when nothing fits and sbrk refuses; the heap stays just what sbrk gave if and only if no request of 2^28 units or more is made |
| `ShellSyntax.GetToken` | assignment2/sh.c:266-309 | the token lies in the line, and any token but the end uses up input (which characters make which token: see ReadBack and Spelled) |
| `ShellSyntax.ParseLine` | assignment2/sh.c:345-360 | the mutually recursive grammar is defined on every line and position, and never reads past the end |
| `ShellLexemes.ReadBack` | assignment2/sh.c:266-309 | words and symbols, >> among them, written with any blanks between them, and with none where they do not clash, are read back as they are |
| `ShellLexemes.Spelled` | assignment2/sh.c:266-309 | every line is its tokens, spelled, with the blanks between them |
| `ShellLexemes.PeekIs` | assignment2/sh.c:311-321 | peek tells whether the next token is one of the symbols |
| `ShellGrammar.RedirsRead` | assignment2/sh.c:375-398 | a chain of redirections, each > or >> or <, is read as the files in order, for output exactly with > and >> |
| `ShellGrammar.ArgsRead` | assignment2/sh.c:430-445 | words with redirections anywhere among them are read as the words and the redirections, each in order |
| `ShellGrammar.ExecReads` | assignment2/sh.c:400-447 | a simple command, with redirections before its first word too, or a parenthesised one, is read as its tree |
| `ShellGrammar.PipeReads` | assignment2/sh.c:362-373 | so is a pipeline |
| `ShellGrammar.BackReads` | assignment2/sh.c:350-354 | so is a chain of & |
| `ShellGrammar.LineReads` | assignment2/sh.c:345-360 | so is a line |
| `ShellRoundTrip.LineFound` | assignment2/sh.c:345-447 | whatever is parsed was written by the grammar, for a form with just that tree |
| `ShellRoundTrip.Complete` | assignment2/sh.c:328-447 | every form of the grammar, written with any blanks, is accepted with nothing left over and gives the tree of its form |
| `ShellRoundTrip.Sound` | assignment2/sh.c:328-447 | every accepted line is some form of the grammar, written out, with the tree the parser gives |
| `ShellRoundTrip.Exactly` | assignment2/sh.c:328-447 | a line is accepted as a command if and only if the grammar writes that line for a form whose tree is the command |
| `ShellRoundTrip.RoundTrip` | assignment2/sh.c:328-447 | every command tree with legal words and at most 9 arguments comes back from its printed form, with nothing left over |
| `ShellWords.LineOk` | assignment2/sh.c:345-447 | every word of an accepted command is a whole token, and simple commands have at most 9 arguments |
| `ShellWords.Accepted` | assignment2/sh.c:328-343 | what is accepted is a legal command, and printing it gives a line that parses to the same command |
| `ShellWords.TerminatedOk` | assignment2/sh.c:449-494 | no terminator lands inside a word, and every word gets one at its end |
| `ShellWords.NulTermination` | assignment2/sh.c:449-494 | on any accepted line every argument and file name then reads as exactly its token |
| `Shell.Parser.GetToken` | assignment2/sh.c:266-309 | the loops compute the token of the grammar, whose spelling ReadBack and Spelled pin down, and move the cursor past it |
| `Shell.Parser.Peek` | assignment2/sh.c:311-321 | skips blanks and tells whether one of the characters comes next |
| `Shell.Parser.ParseRedirs` | assignment2/sh.c:375-398 | the loop computes the redirections of the grammar, whose meaning Exactly pins down, or its panic |
| `Shell.Parser.ParseArgs` | assignment2/sh.c:430-445 | the loop computes the words and redirections of the grammar, or its panic |
| `Shell.Parser.ParseExec` | assignment2/sh.c:416-447 | computes the grammar's simple command |
| `Shell.Parser.ParseBlock` | assignment2/sh.c:400-414 | computes the grammar's block |
| `Shell.Parser.ParsePipe` | assignment2/sh.c:362-373 | computes the grammar's pipe |
| `Shell.Parser.ParseLine` | assignment2/sh.c:345-360 | computes the grammar's line; the recursion ends on every input |
| `Shell.Parser.ParseCmd` | assignment2/sh.c:328-343 | computes the grammar's command, or the panic on leftovers |
| `Shell.NulTerminate` | assignment2/sh.c:449-494 | the buffer after the recursive stores is the specified one |
| `Shell.ParseBuffer` | assignment2/sh.c:328-343 | parsing and terminating in the caller's buffer: every word of the tree then reads there as its token |
| `Pipe.Counters` | assignment2/pipe.c:84-113 | the full and empty tests on wrapping counters are right, and their difference modulo 2^32 is the number of bytes waiting |
| `Pipe.Wraps` | assignment2/pipe.c:92-115 | an index taken from a wrapped counter is the one of the true count, because 512 divides 2^32 |
| `Pipe.Pipe.WriteTurn` | assignment2/pipe.c:83-93 | a turn stores the next bytes in order, as many as there is room for; done exactly if that is all, else it sleeps, or fails exactly if no reader is left or it is killed |
| `Pipe.Pipe.ReadTurn` | assignment2/pipe.c:105-116 | a turn takes the oldest bytes, as many as asked or as there are; on an empty pipe with a writer it sleeps, or fails exactly if it is killed |
| `Pipe.Pipe.Close` | assignment2/pipe.c:58-74 | closing an end changes neither stream; the pipe is freed exactly when both ends are closed |
| `Pipe.Pipe.Others` | assignment2/pipe.c:77-120 | after any turns of other processes the pipe is what those turns in that order make of it; bytes read are a prefix of bytes stored, at most 512 wait, and both streams have only grown |
| `Pipe.Pipe.PipeWrite` | assignment2/pipe.c:77-97 | with any turns of others at each sleep: it sleeps exactly as long as it finds too little room, a reader and itself alive, and the first turn that finds otherwise ends it, as done or failed; the bytes of one write enter the stream in order, all of them exactly on success, and with nothing between them when no one else writes |
| `Pipe.Pipe.PipeRead` | assignment2/pipe.c:99-121 | with any turns of others at each sleep: it sleeps exactly as long as it finds the pipe empty, a writer and itself alive, and the first turn that finds otherwise ends it; what is returned is the next stretch of the stream, as much as asked for or there is; nothing only when all is read and no writer is left |
| `Pipe.PlacesInOrder` | assignment2/pipe.c:82-93 | over any number of turns the bytes of one write lie in the stream in order, next to each other if no one else writes |
| `PageTables.MakeEntry` | assignment2/vm.c:83 | an entry is present, names its frame, and lets the page be written and the program at it exactly as the permissions say |
| `PageTables.AddTableOk` | assignment2/vm.c:55-62 | a new table keeps every frame in one use and every mapping as it was |
| `PageTables.MapUserOk` | assignment2/vm.c:79-83 | mapping a frame in nobody's use keeps every frame in one use |
| `PageTables.UnmapOk` | assignment2/vm.c:263-270 | so does unmapping a page and freeing its frame |
| `PageTables.RetireOk` | assignment2/vm.c:284-291 | and taking a directory without user pages out of use |
| `PageTables.VisitsExactly` | assignment2/vm.c:258-271 | deallocuvm's loop misses a mapped page if and only if there is no table from the first page's on up to its own and it comes earlier in its table than the first page in its |
| `PageTables.SkipAhead` | assignment2/vm.c:258-271 | all that is mapped in the range is visited if and only if no page is missed in that way |
| `PageTables.NoneMissed` | assignment2/vm.c:258-284 | none is missed when the mapped pages are those below some size, nor when the range starts where a table does, as in freevm |
| `PageTables.UnmapsAll` | assignment2/vm.c:258-271 | after deallocuvm nothing in the range is mapped if and only if no page was missed |
| `PageTables.UnmapsRest` | assignment2/vm.c:249-273 | when the mapped pages were those below the old size, those below PGROUNDUP(newsz) are left, exactly the frames of the others are free, and no other frame's use has changed |
| `PageTables.UnmapsBack` | assignment2/vm.c:249-273 | none is missed when the first page of the range is mapped if any is |
| `PageTables.IntactUnmaps` | assignment2/vm.c:235-238 | taking new pages away again leaves every frame and entry that was there before as it was |
| `PageTables.SkipMisses` | assignment2/vm.c:261-262 | page 1024 is missed when table 0 is missing and the loop starts at page 1 |
| `PageTables.MissedPage` | assignment2/vm.c:261-262 | a well-formed memory of three frames in which that happens |
| `Paging.Memory.constructor` | assignment2/kalloc.c:19-23 | no frame is on the list at the start |
| `Paging.Memory.Freerange` | assignment2/kalloc.c:45-52 | exactly the frames that lie whole in the range are put on the list |
| `Paging.Memory.Kalloc` | assignment2/kalloc.c:82-95 | the first frame of the list, or 0 exactly when it is empty |
| `Paging.Memory.Kfree` | assignment2/kalloc.c:59-77 | the frame is on the list, once, if it was not before; otherwise there is no list any more; the panic exactly for an address that is no frame's |
| `Paging.PushedTwice` | assignment2/kalloc.c:72-74 | after a second push of a frame no list threads the free frames |
| `Paging.Memory.Walkpgdir` | assignment2/vm.c:45-65 | the place of the page's entry, with a new table, writable and open to programs, exactly if asked for, missing and possible; no mapping changes |
| `Paging.Memory.MapPage` | assignment2/vm.c:79-83 | one page gets its entry; no memory or the remap panic exactly when it must |
| `Paging.Memory.Mappages` | assignment2/vm.c:70-90 | the pages of the range get consecutive frames up to the first that is mapped already or has no frame for its table; no other entry changes; each table made costs one free frame |
| `Paging.Memory.MapUser` | assignment2/vm.c:240 | one user page gets a frame in nobody's use, or nothing changes |
| `Paging.Memory.RollBack` | assignment2/vm.c:235-238 | out of memory, the pages mapped so far go again and all that was there before is as it was |
| `Paging.Memory.Setupkvm` | assignment2/vm.c:116-144 | a directory made of free frames: memory from KERNBASE on in order, the devices at their own addresses, nothing else; none of it the program's, all of it writable but the kernel's text; 0 exactly if fewer than 65 frames are free, and then none is left; the remap panic is not reached |
| `Paging.KernelPage` | assignment2/vm.c:116-125 | the entry of every page from KERNBASE on, however many regions there are: frame m - 512K for a page of memory, frame m for a device's, none for another; read-only exactly from KERNLINK up to data |
| `Paging.Memory.MapRegion` | assignment2/vm.c:138-143 | one region of kmap is mapped if and only if there are frames for the tables it lacks; the remap panic is not reached |
| `Paging.RegionStep` | assignment2/vm.c:121-144 | mapping one more region of kmap gives just the entries of that region and its tables |
| `Paging.RegionTables` | assignment2/vm.c:121-144 | each region takes the tables that the ones before it did not make |
| `Paging.Memory.Allocuvm` | assignment2/vm.c:220-243 | if the new pages are all mapped afterwards they, and only they, got cleared frames of their own; when none was mapped before, that is so if and only if the free frames are enough for the pages and the missing tables, and a failed call leaves none of them mapped and all else as it was; panics only on a page mapped already |
| `Paging.Memory.FreePage` | assignment2/vm.c:263-270 | just that page is unmapped and its frame on the list; no panic |
| `Paging.Memory.Deallocuvm` | assignment2/vm.c:249-273 | exactly the mapped pages its loop comes to are unmapped and their frames freed, once each; the whole range is unmapped if and only if none is missed; with the pages below oldsz mapped, just those below newsz are left; no panic; all else is as before |
| `Paging.Memory.FreeTables` | assignment2/vm.c:285-290 | every table is freed once |
| `Paging.Memory.Freevm` | assignment2/vm.c:277-292 | every user frame, table and the directory is on the free list, once, and no other frame: none reached only through a kernel mapping |
| `Paging.Memory.CopyPage` | assignment2/vm.c:325-330 | one page of the child, writable and the program's, holds what the parent's holds, in a frame that was free; it works exactly when there is a frame for it and for a missing table; if not, at most that one frame is lost |
| `Paging.Memory.Copyuvm` | assignment2/vm.c:309-336 | on success every page below sz of the child equals the parent's, in frames disjoint from all in use, the kernel's half is as setupkvm makes it, and no other address space changes; it succeeds if and only if all those pages are mapped and the free frames are enough; the panic only if one is not mapped; when memory runs out after setupkvm every frame is back in the use it had, but one at most |
| `Paging.Memory.FreeCopy` | assignment2/vm.c:332-335 | freeing the unfinished copy gives back every frame it took but the one that was never mapped |
| `Grep.MatchHere` | assignment2/grep.c:84-95 | true exactly when some prefix of the text is made of pieces that fit the pattern's items, the whole text if it ends in $ |
| `Grep.MatchStar` | assignment2/grep.c:98-105 | true exactly when the rest matches after some run of fitting characters |
| `Grep.Match` | assignment2/grep.c:71-81 | true exactly when some stretch of the text matches, at its beginning if the pattern begins with ^ |
| `Grep.CompileExactly` | assignment2/grep.c:84-95 | a pattern is read as a list of items if and only if it is those items written out and they can be written so: no single character before a *, the end only last |

## Left out

- FileSystem.FileSystem.Balloc: what the code does after it has chosen a block inside the log region is not modelled; the model stops with `IntoLog`, because a logged log block breaks the log's own premises.
- FileSystem.FileSystem.Bfree: only for a block that no slot refers to any more, as in its one caller.
- FileSystem.FileSystem.Writei: device inodes give the outcome `Device`; the device switch is not modelled.
- FileSystem.FileSystem.Readi: reads run inside a transaction here; files are taken to have no holes below their size, which every modelled operation keeps but `mkfs` can violate for a root directory that exactly fills its blocks.
- FileSystem.FileSystem.Iload: the wait for I_BUSY and the reference count of the inode cache are not modelled.
- FileWrite.Filewrite: only FD_INODE files; the write permission test and pipes go elsewhere. Other processes read blocks meanwhile, but no other transaction runs between two chunks, where the source releases the inode and the log.
- Log.RedoLog.Boot: the place and size of the log are given; `initlog` reads them from the superblock (see `Readsb`).
- Log.RedoLog.Others: other processes read and release home blocks between the block reads of a transaction; their own transactions wait for `busy`.
- BufferCache.Cache.Brelse: a changed buffer has been written or logged before, as the rules in bio.c ask.
- BufferCache.Cache.Iderw: the synchronous in-memory disk; the IDE driver, its queue and its interrupts are not modelled, and only the root device exists.
- BinarySemaphore.RunSafe: creation is not one of the interleaved steps, so the lock that `binary_semaphore_create` resets is never in use; first-in-first-out hand-over and progress are not claimed because the code does not give them (see `OvertakenWhen`, `NeverReturns` and `Starves`).
- CountingSemaphore.RunSafe: the 32-bit overflow of value is not modelled; it needs 2^31 more ups than downs.
- BoundedBuffer.RunSafe: capacities are not negative; `malloc` succeeds and is atomic.
- Bar.RunSafe: the buffers and the bouncer's semaphore are atomic here; `main`'s reading of the configuration and its teardown, the log file and `dirtycups`, which nobody reads; the cup boy and the bartenders read any value the full semaphore can show, and just the number of dirty cups where a lemma asks for `exact`; that everybody gets served in the end is left to the scheduler.
- BarJams.JamsExactly: with `exact`, that is, with buffers that store and announce an item at once; with values that lag behind the boy may go uncalled in more bars.
- SleepWakeup.NoLostWakeup: the scheduler's choice of the next process is not modelled, any runnable process may go on.
- Heap.Allocator.Malloc: sbrk answers, if at all, with an address above all that is on the heap; after a request that wraps round and shrinks the process this excludes the answers sbrk would give next.
- Heap.Allocator.Morecore: as for `Malloc`.
- Heap.Allocator.Free: only for live blocks, and programs keep out of the headers of their blocks.
- Paging.Memory.Allocuvm: the result of a mapping is ignored as in the source, so a call may succeed with its last page not mapped; the frame of a failed mapping stays in nobody's use.
- Paging.Memory.Copyuvm: when memory runs out the one frame whose mapping failed stays in nobody's use; copied pages are always writable and the program's, as in the source, so the guard page below the stack, which `clearpteu` (not modelled) closes to the parent, is open to the child.
- Paging.Memory.Deallocuvm: oldsz is at most KERNBASE, as in all calls; above it the code would free the kernel's own frames.
- Paging.Memory.Freerange: only for frames in nobody's use, as at boot.
- Paging.Memory.Mappages: a user page's frame is in nobody's use before, as all callers see to; kernel pages may name any frame.
- SemaphoreStack.RunRefines: the two identifiers are 0 and 1 and no other semaphore is in use; `KernelBuffer` has five.
- BufferStack.RunRefines: the binary semaphores, the buffer's mutex among them, are atomic here; `KernelBuffer.RunRefines` puts the kernel's in their place.
- Mkfs.Ialloc: what `mkfs` appends to the root directory and to the files it copies on the image is not modelled.
- Shell.Parser.ParseExec: the tree is built when the words are known, instead of a node filled in place under its redirections.
- Shell.Parser.ParseBlock: the missing "(" panic exists but no caller reaches it.
- Directories, path lookup, ialloc, iget, iput and link counts: plumbing over the operations modelled here.
- fork, exit, wait, thread_create, thread_exit, thread_join and the scheduler: context switching is assembly.
- exec, traps, system call arguments, sysfile.c, runcmd and the user programs besides the shell parser and grep's matcher.
- Device drivers, interrupt controllers, boot code.
- grep's line buffer and its reading of files.
