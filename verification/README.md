# MINIX 2 storage engine, packet buffers, pipes, locks, timers and boot images

A model, in Dafny, of the parts of MINIX 2 that keep data: the two-level block cache, the zone
allocator and the block map of files, reading, writing and truncating files, the inode table,
directories, pipes with suspended and revived callers, record locks, the reference-counted packet
buffers of the TCP/IP server, both timer lists, and the boot tools that read a file system and pack
and unpack boot images.

Each component is written in the form the program has. The tables the program changes in place are
fields and arrays of classes (`FsCache`, `FileSys`, `BitMapFile`, `Table`, `Dir`, `FileServer`,
`LockTable`, `BufPool`, `AlarmChain`, `ClockTask`, `RawFs`, `Stream`), its loops are loops, and the
methods are proved against functions on values or against predicates over the old and the new
state. What these functions promise over any sequence of steps is proved as lemmas. All table sizes,
the block size, the number of blocks in a zone, the fan-out of an indirect block, the width of a
zone number and the byte order are parameters.

The layers rest on each other. `CacheRuns.CacheTransparent` shows that the cache stands for a map
from blocks to bytes; the zone and file modules work on that map (`Store`). `BitMapDisk` shows that
alloc_bit on bitmap blocks is the search `BitAlloc.Found` on a sequence of bits, and the zone and
inode modules work with that search.

How the state is represented:

- A buffer is a record in an array; hash chains and the free list are arrays of indices. A buffer
  got with NO_READ is `blank` until its holder fills it, which must happen before the next call of
  the cache. While level 2 is on, the RAM disk is its backing store and not a file device.
- A file system is a block store, the zone map with its hint, and the inodes. `Tidy` is zone
  conservation: the set bits are, each counted once, the zones reachable from inodes and the zones
  in hand (`held`).
- `FileState` holds of every file at all times: the rest of its last block is zero and no zone behind
  its last one is mapped; later blocks of the last zone may hold anything. A file is in order
  (`FileOk`) if moreover the zone of its end is mapped (`EndMapped`), unless it ends in the first block
  of a zone. With one block in a zone every file is in order (`FileRuns.SmallZonesOrder`).
- The packet pool keeps, beside the arrays, the multiset `held` of handles and the chain of each
  accessor. The accessor and the buffer it shows are parallel arrays.
- `accepted` and `delivered` are all bytes ever put into and taken from a pipe; `whole` and `sent` are
  the bytes a writer asked to write and those accepted so far; `carried` is what a process had in
  fp_cum_io_partial when its call was received, and `interrupted` counts the calls that a signal ended.
- `Spare` counts, from the lock table before an unlock alone, the unused slots there will be when its
  loop comes to a slot; `Short` is the first slot that cannot be split then.
- Timer functions are scripts of set and cancel commands: the k-th call does the k-th script.

What the proofs show about the code where one might expect something else:

- invalidate is invisible exactly when no dirty buffer of the device differs from the device
  (`CacheInvisible.InvalidateInvisible`). do_close calls do_sync first, which makes it so.
- The EFBIG test of read_write looks at the file position even if O_APPEND then replaces it, and its
  difference is unsigned, so it passes for more bytes than the largest file has. `FileOps.WriteFile`
  states the condition as coded; `FileExamples.PastLargest` appends a byte to a file that is as large
  as a file may be.
- A write beyond the end that finds no space for even one byte makes the file longer all the same, as
  clear_zone has no zone to clear and i_size is set to the position. Afterwards the file is in order
  if and only if the write was to start in the first block of a zone (`FileOps.WriteFile`);
  `FileExamples.NoSpace` is a device and a write for which it is not. A later write right at that size
  gets a zone that new_block does not clear, since the position is i_size, so bytes that read as zeros
  then read as what the zone held before (`FileExamples.LateWrite` is such a run). A write that takes
  bytes leaves the old content with the bytes laid over it if and only if it does not start right at
  an end of which the zone is not mapped, or the blocks below that end in the zone that alloc_zone
  picks from the map as it is are blank (`FileOps.WriteFile`); no byte before that zone ever changes.
- O_NONBLOCK does not keep a pipe writer from being suspended: with a reader, a non-blocking write is
  suspended if and only if it is of exactly PIPE_SIZE bytes and the pipe is not empty
  (`PipeServer.FileServer.CheckWrite`, `PipeServer.FileServer.ReadWrite`); `PipeExamples.NonblockingSuspends`
  is a run that gets there.
- A write call that ends with EPIPE or by a signal leaves its partial count behind. The count that a
  later call is told is the number of bytes it moved if and only if nothing was left behind when its
  message came (`PipeExamples.FreshCountRight`, `PipeExamples.RevivedCountRight`);
  `PipeExamples.StaleCount` is a run in which a read of one byte is told more. Over any run that is so
  for exactly the processes whose last call that moved bytes was a write that ended by an error, a
  signal or an exit, and those forked by them (`PipeCounts.LeftThrough`).
- do_unpause does not adjust susp_count, so the count is the number of sleepers and of all calls that
  a signal ever ended (`PipeRuns.AtReceive`), and too large from the first such signal on.
- Unlocking clears the locks of all processes in the range. It fails with ENOLCK if and only if some
  lock reaches beyond the range on both sides when, of the slots before it, at least as many must be
  split as are unused or freed (`Locks.RunsOut`); by then the slots before it have given up the range and
  nobody is revived. A wakeup is lost if and only if some waiter is not kept from its lock by what is
  left (`LockServer.LockTable.LockOp`). `LockRuns.FillTable` and `LockRuns.LoseWakeup` are a run that gets there.
- For a hole the boot reader answers the offset within the zone, so it agrees with the file server on
  a hole exactly in the cases given in `BootReader.ReadersAgree`; `BootReader.HoleAnswered` is one
  where it does not.
- bf_append drops accessors without bytes, unless the first packet has nothing else: then the second
  packet is handed back as it is, with its empty accessors. Two packets never give none.

## Model

| member | source | states |
|---|---|---|
| `CacheRuns.CacheTransparent` | src/fs/cache.c:27-120 | after any run of get, put, holder writes, flush, sync, invalidate and read-ahead from an empty cache over any disk, get_block returns the bytes last written to that block |
| `CacheRuns.RunMeaning` | src/fs/cache.c:27-181 | over any legal run the contents the cache stands for are changed by holders' writes alone |
| `CacheRuns.StepMeaning` | src/fs/cache.c:27-406 | each single operation keeps the cache's structure and changes the contents of a block only if a holder wrote that block |
| `CacheHolders.StepStays` | src/fs/cache.c:27-406 | no operation takes a buffer in use from its block but invalidate of the device, and none takes a user from it but put_block of that buffer |
| `CacheHolders.HeldThroughRun` | src/fs/cache.c:27-181 | over any legal run a buffer stays the buffer of its block until all its users have released it |
| `CacheHolders.HolderWritesItsBlock` | src/fs/cache.c:27-120 | whatever is done to the cache in between, what a holder writes goes to the block it asked get_block for, and to no other |
| `CacheRuns.InitialInv` | src/fs/main.c:182-203 | the state buf_pool sets up satisfies the invariant for every disk |
| `CacheInvisible.GetKeeps` | src/fs/cache.c:55-119 | get_block hands out the block asked for with its contents and changes the contents of no block, through hit, eviction, flush and level 2 |
| `CacheInvisible.PutKeeps` | src/fs/cache.c:126-181 | put_block changes the contents of no block, whichever end of the list the buffer goes to |
| `CacheInvisible.WriteChangesOne` | src/fs/read.c:272-278 | a holder's write changes the block its buffer holds and no other |
| `CacheInvisible.FlushMeaning` | src/fs/cache.c:306-318 | a flush puts every dirty buffer of the device at its own place on the device and writes no other block |
| `CacheInvisible.SyncKeeps` | src/fs/misc.c:150-152 | do_sync changes no contents and leaves no dirty buffer |
| `CacheInvisible.InvalidateMeaning` | src/fs/cache.c:287-300 | after invalidate a block of the device is what the device holds and every other block is as before |
| `CacheInvisible.InvalidateInvisible` | src/fs/cache.c:287-300 | invalidate leaves all contents alone if and only if no dirty buffer of the device differs from the device |
| `CacheInvisible.EvictKeeps` | src/fs/cache.c:68-98 | taking the oldest buffer, flushing its device if it is dirty and spilling it into level 2 loses nothing |
| `CachePrefetch.GatherKeeps` | src/fs/read.c:494-511 | the loop of rahead collects buffers that wait for consecutive uncached blocks, and no contents change |
| `CachePrefetch.HarvestKeeps` | src/fs/cache.c:371-404 | validating and releasing the prefetched buffers, however many the device filled, changes no contents |
| `CachePrefetch.ReadAheadKeeps` | src/fs/read.c:404-514 | rahead hands out the requested block with its contents and is invisible, for any outcome of the transfer |
| `CacheSpec.Newest` | src/fs/cache2.c:68-75 | the backward ring search finds the newest entry of a block, or shows that there is none |
| `CacheSpec.WriteBackHits` | src/fs/cache.c:324-406 | a write-back of distinct buffers puts each one's bytes at its own block |
| `CacheSpec.WriteBackMisses` | src/fs/cache.c:324-406 | a write-back changes no block that is not in its list |
| `CacheSpec.WriteBackAnyOrder` | src/fs/cache.c:339-355 | the order in which a queue of buffers is written does not matter, which is why sorting it is allowed |
| `CacheTables.CountZero` | src/fs/cache2.c:63-65 | a zero b2_count means that no ring entry has that hash, so skipping the search is right |
| `CacheTables.BucketIs` | src/fs/cache.c:55-57 | blocks share a hash chain exactly if their numbers are a multiple of the table size apart |
| `CacheTables.CountsReplace` | src/fs/cache2.c:88-109 | the per-hash counts stay right when a ring slot is refilled |
| `Links.DllRemove` | src/fs/cache.c:412-431 | joining the neighbours of an element leaves a doubly linked list of exactly the others |
| `Scattered.SortQueue` | src/fs/cache.c:339-355 | the shrinking-gap sort yields ascending block numbers and a permutation, for every queue length |
| `Scattered.Sift` | src/fs/cache.c:346-354 | one pass with any gap permutes the queue; with gap 1 it inserts the entry in its place |
| `BlockCache.TransferIsWriteBack` | src/fs/cache.c:360-384 | writing a run of consecutive blocks in one request equals writing each buffer to its own block |
| `BlockCache.FsCache.WriteBatch` | src/fs/cache.c:357-394 | one turn of the write loop gets at least one buffer on, and has written and cleaned exactly those it passed |
| `BlockCache.FsCache.WriteScattered` | src/fs/cache.c:324-406 | rw_scattered sorts its queue, writes every queued buffer to its own block in that order, in requests of at most NR_IOREQS consecutive blocks, cleans it, and ends, if the device transfers at least the first block of each request |
| `BlockCache.FsCache.FlushAll` | src/fs/cache.c:306-318 | flushall is the flush of the specification |
| `BlockCache.FsCache.RmLru` | src/fs/cache.c:412-431 | rm_lru takes one buffer off the doubly linked list and keeps list and count together |
| `BlockCache.FsCache.GetBlock` | src/fs/cache.c:27-120 | get_block on the linked tables refines the specification, keeps hash chains, free list and counts, and meets its promise about contents |
| `BlockCache.FsCache.PutBlock` | src/fs/cache.c:126-181 | put_block on the linked tables refines the specification and keeps their structure |
| `BlockCache.FsCache.GetBlock2` | src/fs/cache2.c:52-82 | a buffer is filled from level 2 exactly when the ring has the block, with the newest copy; use of the RAM disk turns level 2 off |
| `BlockCache.FsCache.PutBlock2` | src/fs/cache2.c:88-109 | the evicted block goes to the next ring slot and the counts stay right |
| `BlockCache.FsCache.InvalidateDevice` | src/fs/cache.c:287-300 | both levels forget the device and the structure is kept |
| `BlockCache.FsCache.BufPool` | src/fs/main.c:182-203 | buf_pool builds a valid cache with every buffer free |
| `BlockCache.FsCache.ReadScattered` | src/fs/cache.c:357-405 | the read harvest validates just the buffers the device filled, at most one request of consecutive blocks, and releases all |
| `BlockCache.FsCache.Rahead` | src/fs/read.c:404-514 | rahead on the linked tables refines prefetch-then-validate, with one request of at most NR_IOREQS blocks of which the device fills any number, and returns the block's contents |
| `BlockCache.FsCache.DoSync` | src/fs/misc.c:150-152 | the sync loop refines its specification, changes no contents and leaves nothing dirty |
| `Indirect.ConvInvolution` | src/fs/utility.c:122-150 | conv2 and conv4 applied twice give back the number |
| `Indirect.RdNames` | src/fs/read.c:352-372 | an entry of an indirect block is the number of its two or four bytes, the low byte first if the file system is native and the high byte first if not |
| `Indirect.WrNames` | src/fs/write.c:128-144 | the bytes that wr_indir leaves: those of the number at the entry, in either width and order, and no other byte changed |
| `Indirect.EntryRoundTrip` | src/fs/write.c:128-144 | wr_indir then rd_indir gives the zone back, and every other entry is as before, for both entry widths and byte orders |
| `BlockMap.PosUnique` | src/fs/read.c:302-345 | no two relative zones share a place among the direct, single and double indirect slots |
| `Zones.ZoneLeads` | src/fs/read.c:302-345 | the zone of a position is the one its bytes lead to: a field of the inode, an entry of the single indirect block, or an entry of a block named in the double indirect block |
| `Zones.MapLeads` | src/fs/read.c:299-345 | the same for a byte position: relative zone position / block size / blocks per zone, and the block in it |
| `BlockMap.TidyHook` | src/fs/write.c:51-121 | recording a zone in hand in an empty slot keeps zone conservation |
| `BlockMap.HookEntry` | src/fs/write.c:128-144 | writing one entry of an indirect block changes that slot of that file and no slot of any file besides |
| `Zones.NextZoneIs` | src/fs/cache.c:207-212 | the zone picked is the first free one from the chunk of the zone asked for on, from the hint on if that is the first data zone, else from the beginning; none exactly if no zone is free |
| `Zones.FileSys.AllocZone` | src/fs/cache.c:187-223 | a zone is handed out only if its bit was clear and nobody owns it; it is the first free one from where the zone asked for, or the hint, says to look; failure means the map is full; conservation is kept and the hint is exact |
| `Zones.FileSys.FreeZone` | src/fs/cache.c:229-244 | the zone's bit was set, so the panic cannot happen; it is cleared, the hint moves down to it exactly if it was above, and conservation is kept |
| `Zones.FileSys.ReadMap` | src/fs/read.c:288-346 | the answer is block (position / block size) % blocks per zone of the zone that the bytes of the inode and the indirect blocks lead to, or NO_BLOCK without one |
| `Zones.FileSys.WriteMap` | src/fs/write.c:37-122 | after OK the bytes of the inode and the indirect blocks lead from the position to the new zone, which is no longer in hand; after ENOSPC to none, and the map is full; a new indirect zone is the one free next to the file's first; conservation holds either way; zones in hand hold what they held; it runs out of space only beyond the direct zones |
| `Zones.MapElsewhere` | src/fs/write.c:51-121 | a write_map at one zone leaves the zone of every other position of that file and of all other files as it was |
| `BitAlloc.FoundFirst` | src/fs/super.c:46-96 | the search takes the first clear bit from the chunk of its origin to the end of the map, and if there is none the first clear bit of all |
| `BitAlloc.FoundComplete` | src/fs/super.c:54-96 | the search that starts in mid-map and wraps fails if and only if every bit is set |
| `BitAlloc.HintedSearch` | src/fs/super.c:54-96 | from a good hint the search finds the lowest clear bit without wrapping, and that bit is again a good hint |
| `BitAlloc.StepDoes` | src/fs/cache.c:207-243 | each step of such a run: which bit changes and how, and what the hint is then |
| `BitAlloc.HintAlwaysGood` | src/fs/cache.c:207-222 | over every run of allocations and releases all bits below the hint stay set, so hinted searches need no wrap and fail only on a full map |
| `BitMapDisk.FlatIs` | src/fs/super.c:73-79 | bit b of the map is bit b % 16 of its chunk as it is stored on a native file system, and with the two bytes of the chunk exchanged on another |
| `BitMapDisk.SetBitMeaning` | src/fs/super.c:84-88 | changing one bit of a chunk of a bitmap block changes that bit of the map and no other, in either byte order |
| `BitMapDisk.BitMapFile.FindInBlock` | src/fs/super.c:66-91 | the word and bit loops find the first clear bit of a block from a word on, or show that none is there |
| `BitMapDisk.BitMapFile.AllocBit` | src/fs/super.c:26-97 | alloc_bit on bitmap blocks sets exactly one stored bit, in either byte order: the first clear one from the chunk of the origin on, else the first; it fails exactly if all are set, and changes nothing then |
| `BitMapDisk.BitMapFile.FreeBit` | src/fs/super.c:103-141 | the stored bit is cleared and no other; the panic is reported exactly when it was clear already |
| `FileContent.WrittenTwice` | src/fs/read.c:128-159 | writing in two pieces is the same as writing at once |
| `FileContent.ChunkContent` | src/fs/read.c:240-281 | one chunk written over a properly prepared block is the write on the byte sequence, zero-extended to its position |
| `Files.ClearZone` | src/fs/write.c:150-185 | just the blocks of the zone from the given one on become zero; without a zone nothing happens |
| `Files.PickedIs` | src/fs/write.c:208-221 | the zone new_block gets is the first free one from the file's first zone on, or from the hint on if it has none there |
| `Files.NewZone` | src/fs/write.c:208-232 | the zone alloc_zone picks is recorded at the position only; the rest of it is zero when the file is not growing at its end, and else holds what it held; on failure no zone is recorded or lost; it fails if no zone is free, and for a direct zone only then |
| `Files.NewBlock` | src/fs/write.c:191-238 | the block returned is the block of the position and is zero; the other blocks of a new zone are zero, or as the device held them if the position is i_size; other positions and files are as before, also after ENOSPC |
| `Files.ChunkBuffer` | src/fs/read.c:236-266 | the buffer holds what is needed of the old bytes and zeros for what the file does not have |
| `FileOps.AfterClear` | src/fs/read.c:113-117 | after clear_zone every byte at and behind the old end of file reads as zero and every byte before it is unchanged |
| `FileOps.Extended` | src/fs/read.c:113-117 | a write beyond the end zero-extends the file to its position |
| `FileOps.ByteIs` | src/fs/read.c:236-278 | byte q of a file is byte q % block size of the block that its position leads to, and zero if that is none |
| `FileOps.WriteFile` | src/fs/read.c:43-206 | for every file, in order or not: OK means all bytes, ENOSPC a proper prefix, none of it if no zone is free and the position has none, and for direct zones only then; EFBIG under exactly the condition coded; the bytes lie in the blocks their positions lead to, and the size is the old one or the end of the bytes; what the content is afterwards, which is the old one zero-extended and overlaid with the bytes if and only if the write ends clean; other files untouched; after a write beyond the end of which no byte found space the file is in order if and only if it was to start in the first block of a zone |
| `FileOps.ResultBefore` | src/fs/write.c:226-228 | whatever the zone at the end held, no byte before it and before the write changes |
| `FileEnds.ExposedRight` | src/fs/write.c:226-228 | putting in a zone that is not cleared at the end of a file changes none of its bytes if and only if the blocks of the zone below the one of the end are blank |
| `FileEnds.OpensContent` | src/fs/write.c:219-238 | the file then shows what that zone held, below the block of the end, and what it showed everywhere else |
| `FileOps.ReadFile` | src/fs/read.c:106-165 | a read returns exactly the slice of the content at its position, cut off at the end of file, which is what lies in the blocks the positions lead to |
| `FileOps.ReadChunk` | src/fs/read.c:240-281 | the bytes of one block, and zeros for a hole |
| `FileRuns.Serve` | src/fs/read.c:43-206 | any sequence of reads and writes on any files, also through a full device, is answered as byte sequences would be that take over just the bytes reported as written, over what each file was taken to hold; unless there is a write beyond the end of which no byte finds space, that is what it holds and files stay in order; only want of room where the size check does not work ends the service |
| `FileRuns.OneAnswer` | src/fs/read.c:43-206 | as long as no request meets a full device and files are taken to hold what they hold, two services of the same requests give the same answers and leave the same files |
| `FileRuns.ServeOne` | src/fs/read.c:43-206 | one request on files that show given bytes is answered rightly; a file is taken to hold something else than it holds exactly when bytes go right at an unmapped end and the zone picked is not blank below it, and then only in its last zone |
| `FileRuns.SmallZonesOrder` | src/fs/write.c:166-168 | with one block in a zone, where clear_zone has nothing to do, all files are always in order |
| `FileExamples.NoSpace` | src/fs/read.c:113-165 | on a full device a write of one byte behind the end of an empty file takes no byte, leaves two bytes in the file, and the file out of order |
| `FileExamples.LateWrite` | src/fs/write.c:219-238 | after that, and the removal of the other file, a call that writes a byte right at the end of the file leaves bytes 7, 7, 1 in it, where 0, 0, 1 should be |
| `FileExamples.PastLargest` | src/fs/read.c:106-111 | a call that appends a byte to a file that is as large as a file may be is not refused |
| `FileRuns.FreshDevice` | src/fs/read.c:288-346 | a device with clear map and empty inodes shows empty files, whatever its blocks hold |
| `Truncate.FreeData` | src/fs/link.c:344-351 | stepping by zones up to the end of file frees every data zone of the file once |
| `Truncate.FreeDouble` | src/fs/link.c:359-372 | the zones under the double indirect block and its own are freed once, and the block is read before it is freed |
| `Truncate.Truncate` | src/fs/link.c:320-375 | every zone of the file is freed exactly once, no other zone is, and the map is then that of the other files |
| `Truncate.TruncateAndWipe` | src/fs/open.c:126-135 | with O_TRUNC the file has no size and no zone number, is empty and in order, its zones are free, and no other file changes |
| `Truncate.ExactlyFreed` | src/fs/link.c:344-372 | the bits that go off are those of the file's data and indirect zones and no others |
| `Inodes.TableTransparent` | src/fs/inode.c:34-159 | over every run of get, put, dup, change, alloc and sync, get_inode shows the inode as its holders left it, and a new one with the mode given, no links, no size and no zones |
| `Inodes.GetKeeps` | src/fs/inode.c:34-72 | get_inode shows the inode asked for with one more user, changes none, and fails exactly when it is not in use and no slot is free |
| `Inodes.PutKeeps` | src/fs/inode.c:78-100 | one user less; free_bit never meets a clear bit; the last user of an unlinked inode removes it and frees its number, every other put leaves all inodes as they are |
| `Inodes.PutChanges` | src/fs/inode.c:78-100 | the last put of an unlinked inode clears its bit and no other, and moves the hint down to it; every other put leaves map and hint alone |
| `Inodes.AllocKeeps` | src/fs/inode.c:105-159 | the number handed out is the lowest free one and was nobody's; the new inode has the mode given, one user, no links, no size and all its zones 0; no other changes; it fails exactly on a read-only device, a full map or a full table, and then no bit changes |
| `Inodes.SyncKeeps` | src/fs/misc.c:146-148 | after the sync loop the disk holds every inode as the table had it |
| `InodeTable.Table.GetInode` | src/fs/inode.c:34-72 | the slot loop refines the specification |
| `InodeTable.Table.PutInode` | src/fs/inode.c:78-100 | put_inode with free_inode and the write-back refines the specification and does what `Inodes.PutKeeps` and `Inodes.PutChanges` say; the panic cannot happen |
| `InodeTable.Table.AllocInode` | src/fs/inode.c:105-159 | alloc_inode refines the specification, giving the bit back when the table is full; the new inode has the mode given, no links, no size and all its zones 0 |
| `InodeTable.Table.ChangeBody` | src/fs/protect.c:50-54 | a user of a slot changes what its inode shows, marks it dirty, and changes no other inode |
| `InodeTable.Table.FreeInode` | src/fs/inode.c:184-199 | the bit goes off and the hint moves down to it; numbers outside the map are ignored |
| `InodeTable.Table.SyncInodes` | src/fs/misc.c:146-148 | the loop writes every dirty inode in use |
| `BootReader.ReadersAgree` | src/boot/rawfs.c:204-271 | both readers give the same block for every mapped block, and for a hole if and only if it is the first block of its zone or its indirect block is missing; so always when a zone is one block |
| `BootReader.HoleAnswered` | src/boot/rawfs.c:218-228 | with several blocks in a zone, the second block of a file without its first zone is block 1 to the boot reader and no block to the file server |
| `BootReader.RawFs.Vir2Abs` | src/boot/rawfs.c:204-271 | the one-entry caches of indirect blocks stay right; the answer is past the end exactly for blocks at or behind the size |
| `BootReader.RawFs.Stat` | src/boot/rawfs.c:95-163 | choosing another file forgets the cached indirect blocks |
| `BootReader.RawFs.SameBlock` | src/boot/rawfs.c:217-270 | in any order of calls the monitor finds the block read_map gives for the same position |
| `Directory.ShowsLists` | src/fs/path.c:303-344 | the map is what the entries say in bytes: an entry in use gives the name in its field up to a zero byte, and the number in it, as it is or with its two bytes exchanged |
| `Directory.Dir.Search` | src/fs/path.c:241-376 | search_dir on a directory is lookup, insertion, removal and emptiness test on a map from names to inode numbers, which is what the bytes of the entries list before and afterwards, with its error codes; ENTER reuses a hole if there is one and else adds one entry |
| `Directory.Dir.Scan` | src/fs/path.c:282-344 | the block and slot loops stop at the first entry that serves, or have passed every entry |
| `Directory.Dir.FillEntry` | src/fs/path.c:361-374 | filling a free or new slot adds that binding and no other; the bytes of the entry are the number in the order of the file system and the name padded with zeros |
| `Directory.Dir.EraseEntry` | src/fs/path.c:317-325 | freeing a slot removes that binding and no other, and keeps the old number in the last two bytes of the name field |
| `Directory.PadName` | src/fs/path.c:362-363 | storing a name in its padded field and reading it back gives the same name, cut at the field's length |
| `NetPool.LiveIffReachable` | src/inet/buf.c:1070-1102 | an accessor is in use if and only if the chain of some handle leads to it |
| `NetPool.NoLoop` | src/inet/buf.c:1070-1102 | chains are acyclic |
| `NetSteps.DupKeeps` | src/inet/buf.c:414-445 | bf_dupacc keeps all counts, shows the same bytes, and changes no chain there was |
| `NetSteps.ReclaimKeeps` | src/inet/buf.c:358-410 | giving up the last hold puts the accessor on just the right free list and keeps all counts |
| `NetLinks.TakeKeeps` | src/inet/buf.c:247-321 | taking an accessor with its buffer from the buffer free list keeps all counts and disturbs no chain |
| `NetLinks.CutBytes` | src/inet/buf.c:592-633 | cutting a chain behind an accessor that only the caller holds changes the bytes of no other chain |
| `NetLinks.JoinBytes` | src/inet/buf.c:727-753 | linking a chain to an end appends its bytes to the chains through that end and changes no other |
| `NetLinks.RewriteSeg` | src/inet/buf.c:755-767 | changing a buffer that has a single accessor is seen through no other accessor |
| `NetFill.WriteBytes` | src/inet/buf.c:531-539 | copying into part of an accessor splices those bytes into the chains that show it and into no other |
| `NetBuf.BufPool.constructor` | src/inet/buf.c:115-196 | bf_init builds a pool in which every accessor is on exactly one free list and each buffer hangs on one of them |
| `NetBuf.BufPool.DupAcc` | src/inet/buf.c:414-445 | on the arrays: a second accessor with the same bytes |
| `NetBuf.BufPool.AFree` | src/inet/buf.c:347-411 | giving up a handle reclaims what only it led to and leaves the bytes of every other handle alone |
| `NetBuf.BufPool.BufSize` | src/inet/buf.c:447-463 | the number of bytes of a chain |
| `NetBuf.BufPool.CutOut` | src/inet/buf.c:546-634 | bf_cut returns the bytes from offset on, length of them, and leaves its argument and every other chain intact |
| `NetOps.DelHead` | src/inet/buf.c:637-684 | bf_delhead drops the first bytes; every other handle still shows the same bytes |
| `NetOps.Discard` | src/inet/buf.c:646-667 | the accessors before the wanted byte are given up, nothing else changes |
| `NetPack.MemReq` | src/inet/buf.c:227-328 | a chain of the wanted length in as few buffers as can hold it, all its own, with no other chain disturbed |
| `NetPack.CopyChain` | src/inet/buf.c:505-540 | the two-pointer copy loop makes the fresh chain show the bytes of the old one |
| `NetPackets.Pack` | src/inet/buf.c:488-543 | bf_pack keeps the bytes, in as few accessors as can show them, each with one holder and with a buffer that has no other accessor; a packet that is so already comes back as it is; no other handle is disturbed |
| `NetPackets.Align` | src/inet/buf.c:1145-1186 | bf_align keeps the bytes and disturbs no other handle; the first accessor has the first bytes, as many as asked for or all; unless the packet was good as it was, it has one holder and its buffer one accessor |
| `NetAppend.Append` | src/inet/buf.c:691-837 | bf_append yields the bytes of both packets and disturbs no other handle, in every branch; its pieces are those of the first that have bytes and those of the second from the first one that has, the two that meet being one exactly if they fit into a buffer; if the first has no bytes the second is left as it is |
| `NetAppend.TakeOver` | src/inet/buf.c:709-735 | the first packet becomes the caller's own without its empty accessors, with the same bytes in the same pieces |
| `NetAppend.MergeHere` | src/inet/buf.c:755-773 | the in-place move within the last buffer is seen through no other handle |
| `NetAppend.MergeInto` | src/inet/buf.c:775-836 | copying both accessors into a fresh buffer gives the same bytes |
| `PipeRuns.Run` | src/fs/main.c:41-104 | over any sequence of messages, at every receive nobody waits to be revived, nobody sleeps without a reason, and each pipe is first in, first out and never over its size; the turns are those of the messages that could be sent, in their order, and follow on each other |
| `PipeRuns.AtReceive` | src/fs/pipe.c:97-148 | at a receive a sleeping reader's pipe is empty and has a writer, a sleeping writer's pipe has a reader, what a sleeping writer saved is exactly what was not accepted, its partial count is what it was at the call and what was accepted since, and susp_count is the number of sleepers and of calls ended by signals |
| `PipeRuns.Handle` | src/fs/main.c:41-68 | what each message does to the tables and what it is answered, and under exactly which conditions |
| `PipeServer.FileServer.Quiesce` | src/fs/main.c:74-104 | the revival loop ends; whoever was suspended still is, in the same call, or is answered once; a blocking writer is answered a count only when all its bytes are in the pipe, and every count is the one left from before the call and the bytes moved by it |
| `PipeServer.FileServer.ReadWrite` | src/fs/read.c:106-206 | a pipe write moves a prefix in order, all if it fits, nothing or all up to PIPE_SIZE, and saves the rest; exactly when it is counted, suspended, EAGAIN, EPIPE or EFBIG; a pipe read takes the next bytes, at least one if there are any; on an empty pipe end of file exactly without a writer, else EAGAIN exactly with O_NONBLOCK, else it is suspended |
| `PipeServer.FileServer.CheckRead` | src/fs/pipe.c:97-115 | pipe_check for a reader stops it exactly on an empty pipe: end of file exactly without a writer, EAGAIN exactly with O_NONBLOCK, else suspension |
| `PipeServer.FileServer.CheckWrite` | src/fs/pipe.c:117-152 | pipe_check for a writer: EPIPE exactly without a reader; else exactly when all, a part or nothing may go in, and when it is told EAGAIN or suspended, also with O_NONBLOCK |
| `PipeServer.FileServer.MoveIn` | src/fs/read.c:120-202 | the bytes go in behind the others, with the count so far, and a longer write is suspended with the rest |
| `PipeServer.FileServer.MoveOut` | src/fs/read.c:127-175 | the next bytes come out; an emptied pipe starts over for both ends |
| `PipeServer.FileServer.Release` | src/fs/pipe.c:186-209 | the table loop wakes exactly the processes that hang on that end of that pipe |
| `PipeServer.FileServer.GetWork` | src/fs/main.c:82-97 | some revived process goes on with its saved call |
| `PipeServer.AllSent` | src/fs/read.c:191-202 | a writer that may block and is told a count has had all its bytes accepted |
| `PipeServer.CountTold` | src/fs/read.c:191-202 | the count told is what fp_cum_io_partial held when the call was received and the bytes moved since |
| `PipeExamples.FreshCountRight` | src/fs/read.c:191-202 | a call answered at once is told the number of bytes it moved if and only if fp_cum_io_partial was 0 when its message came |
| `PipeExamples.RevivedCountRight` | src/fs/main.c:82-97 | the same for calls that were suspended and answered after any number of retries |
| `PipeCounts.LeftThrough` | src/fs/read.c:191-202 | over any run the flags that follow the messages and answers say which processes have a count left over |
| `PipeCounts.ToldRight` | src/fs/read.c:191-202 | in any run a call is told the number of bytes it has moved, at once or after retries, if and only if its process had no count left over |
| `PipeExamples.StaleCount` | src/fs/pipe.c:256-302 | a run in which a signal ends a partial write and the next read of one byte is told more than one |
| `PipeExamples.NonblockingSuspends` | src/fs/pipe.c:127-148 | a run in which a writer with O_NONBLOCK is suspended |
| `PipeServer.AnsweredMore` | src/fs/main.c:82-97 | retrying one call keeps the account of who has been answered |
| `Pipes.GetFifo` | src/fs/read.c:167-174 | taking bytes out keeps delivered followed by the contents equal to accepted, also when the pipe starts over |
| `Pipes.PutNoLost` | src/fs/pipe.c:127-148 | bytes put into a pipe leave no reader asleep |
| `Pipes.SuspendNoLost` | src/fs/pipe.c:101-148 | falling asleep for a reason, with nobody asleep at the other end, loses no wakeup |
| `PipeTables.CloseNoLost` | src/fs/open.c:413-432 | dropping an end of a pipe after waking the other side leaves nobody asleep for ever |
| `PipeRuns.Close` | src/fs/open.c:381-449 | do_close wakes exactly those at the other end, drops just the one descriptor, and keeps the invariant |
| `PipeRuns.DoPipe` | src/fs/pipe.c:30-76 | two free descriptors of the caller lead to the two ends of a new empty pipe, exactly if there are two free descriptors, two free filps and an inode; otherwise nothing at all has changed and it is said which was missing first |
| `PipeRuns.GetFd` | src/fs/filedes.c:17-58 | get_fd finds a free descriptor from its start on and a free filp, or says which is missing |
| `PipeRuns.Dup` | src/fs/misc.c:88-94 | F_DUPFD gives the first free descriptor from its argument on for the same filp, counted, or says exactly what is wrong: the descriptor, the argument, no free descriptor, no free filp |
| `PipeRuns.Fork` | src/fs/misc.c:198-230 | the child gets the parent's descriptors and every filp is counted once more for each |
| `PipeRuns.Unpause` | src/fs/pipe.c:256-302 | a signal ends the suspended call and disturbs nobody else |
| `PipeRuns.Exit` | src/fs/misc.c:266-329 | an exiting process ends with no call and no descriptor: its call is ended and uncounted and each descriptor is closed as do_close does it, in their order; the invariant holds |
| `LockServer.RegionMeaning` | src/fs/lock.c:49-64 | 32-bit unsigned arithmetic names exactly the bytes meant, or the request is refused because they are not all file positions |
| `LockServer.RegionIs` | src/fs/lock.c:49-64 | the range counts from the start of the file, the position of the descriptor or the end of the file, and the request is refused exactly if its bytes are not all file positions |
| `LockServer.LockTable.LockOp` | src/fs/lock.c:21-160 | a request that is well formed and has the right mode is about the bytes from base + l_start on, l_len of them or all, where the base is 0, the position or the size; it is EINVAL exactly if they are not all positions; GETLK reports the first lock in the way exactly when SETLK would fail and SETLKW would wait; setting takes the first unused slot and adds exactly the range, ENOLCK exactly without one; unlocking removes exactly the range, ENOLCK exactly when it runs out of slots; refused requests change nothing; a wakeup is lost exactly when an unlock that runs out of slots has trimmed the last lock in some waiter's way |
| `LockServer.LockTable.Unlock` | src/fs/lock.c:95-126 | deleting, trimming and splitting slots gives up exactly the range; nr_locks stays right; it runs out of slots if and only if the table before the call says so, and then exactly the slots before the one it cannot split have given up the range |
| `LockServer.LockTable.FindBlocker` | src/fs/lock.c:66-93 | the slot loop finds the first conflicting lock if there is one, and else the first unused slot |
| `LockServer.LockTable.LockRevive` | src/fs/lock.c:165-185 | exactly the processes waiting for a lock are revived |
| `LockServer.LockTable.CloseLocks` | src/fs/open.c:437-447 | exactly the locks of this process on this file go, all waiters are revived exactly if there were any, and no waiter is forgotten |
| `LockServer.LockTable.Retry` | src/fs/main.c:82-97 | a revived waiter's saved call is served again, with all its outcomes, and no wakeup is lost |
| `LockServer.KeptAre` | src/fs/lock.c:114-127 | after an unlock that ran out of slots nobody waits for nothing if and only if, by the table before the call, every waiter is still kept from its lock |
| `LockRuns.Run` | src/fs/main.c:41-104 | over any sequence of lock calls, closes, signals, forks and exits, at every receive overlapping locks of different processes are read locks and nobody is left to be revived, and if no unlock ran out of slots, whoever waits is kept from its lock; the turns follow on each other, each message being served and then whoever it revives |
| `LockRuns.Quiesce` | src/fs/main.c:74-104 | every revived waiter is served once, the first of the table first, by its saved call, and is answered or waits again; no wakeup is lost |
| `LockRuns.Handle` | src/fs/main.c:41-68 | what each message does to the table and the waiters, and exactly when it loses a wakeup |
| `LockRuns.Exit` | src/fs/misc.c:266-329 | an exiting process waits no more, exactly its locks on the files it has open go, and all waiters are revived exactly if there were any |
| `LockRuns.FullTableLoses` | src/fs/lock.c:114-127 | a full table, a waiter and an unlock that loses its wakeup |
| `LockRuns.LoseWakeup` | src/fs/lock.c:114-127 | there the unlock answers ENOLCK, and afterwards the waiter is neither kept from its lock nor revived |
| `Locks.ClearingEnds` | src/fs/lock.c:95-126 | when all slots have been looked at, everything outside the range is locked as before and nothing inside it |
| `Locks.ClearingExact` | src/fs/lock.c:95-126 | after the first slots have been looked at, exactly those have given up exactly the range |
| `Locks.ConflictFrom` | src/fs/lock.c:66-93 | whether somebody is then kept from a lock can be told from the table before the call |
| `Locks.SetSafe` | src/fs/lock.c:151-159 | filling a slot when nothing conflicts keeps overlapping locks of different processes read locks |
| `Locks.SafeBytes` | src/fs/lock.c:66-93 | a byte that two processes have locked is locked for reading by both |
| `Locks.UsedFull` | src/fs/lock.c:115-118 | the count of used slots equals the table size if and only if none is free |
| `Timers.AlarmChain.ClckTimer` | src/inet/clock.c:66-102 | the chain stays sorted, the timer is in its place in it and the others are in their order, and an expiry pass or an early enough alarm is pending |
| `Timers.AlarmChain.ClckUntimer` | src/inet/clock.c:164-169 | just this timer goes, and the first one is covered by a pass or an alarm |
| `Timers.AlarmChain.ClckTick` | src/inet/clock.c:104-109 | after an alarm the first timer is covered again |
| `Timers.AlarmChain.SetTimer` | src/inet/clock.c:132-162 | set_timer flags a pass only if the first timer is due, and else sees to an alarm in time |
| `Timers.AlarmChain.ExpireTimers` | src/inet/clock.c:171-191 | one after the other the first timer is taken off as long as it is due, and its function sets and cancels what it does; timers that no function touches are called, once, exactly if they are due; afterwards none is due |
| `Timers.InsertSorted` | src/inet/clock.c:84-99 | inserting at the place found keeps the chain sorted |
| `KernelTimers.ClockTask.SetTimer` | src/kernel/clock.c:187-215 | the timer is on the active list behind all that do not expire later, and on no other; the others are in their order, and next_timer is the first to expire |
| `KernelTimers.ClockTask.ClrTimer` | src/kernel/clock.c:220-243 | the timer is on no list and no other timer moved, the lists keep their order |
| `KernelTimers.ClockTask.MoveExpired` | src/kernel/clock.c:152-164 | exactly the due timers go to the fronts of the expired lists of their owners, the last one first, and exactly the owners whose list was empty are alerted, but not the one running |
| `KernelTimers.ClockTask.ExpTimers` | src/kernel/clock.c:248-265 | one after the other the owner's first expired timer is taken off and its function sets and clears what it does, until there is none; every timer there that no function touches is called once and is off; no other timer moves |
| `KernelTimers.ClockTask.ClockTick` | src/kernel/clock.c:141-179 | due timers go to their owners or are called, and nothing happens before next_timer; if the functions called set timers for the future only, no due timer stays active and next_timer is in the future |
| `KernelTimers.MoveToExpired` | src/kernel/clock.c:156-164 | moving the first timer keeps each armed timer on exactly one list |
| `BootImage.RoundTrip` | src/boot/installboot.c:192-331 | extracting a made image gives back every program, header and text and data, with the symbol table marked as gone unless the header is in the text |
| `BootImage.FilesBack` | src/boot/installboot.c:192-331 | extracting a made image gives every file back byte by byte up to the end of its data, with A_NSYM off and a_syms 0 in the header of a program that is not page aligned and every other byte as it was |
| `BootImage.AllPacked` | src/boot/installboot.c:192-263 | the image byte by byte: for each program a sector with its name and its header, in which a_syms is 0, A_NSYM is off and all else is as in the file, and zeros behind it; then text and data in whole sectors |
| `BootImage.GoodExecutable` | src/boot/installboot.c:93-123 | a file is accepted exactly if it has the magic number, a header of 32 to 48 bytes, and all the text and data its header speaks of |
| `BootImage.ExtractTaken` | src/boot/installboot.c:281-331 | extraction finds programs exactly if the image is made up of their sectors |
| `BootImage.ProcSizeIs` | src/boot/bootimage.c:235-244 | proc_size is exactly the number of sectors laid behind a header |
| `BootImage.SkipLands` | src/boot/bootimage.c:427-441 | skipping proc_size sectors behind a header lands on the next header |
| `BootImage.BodyOfLay` | src/boot/installboot.c:239-250 | taking the sector padding out of the segments undoes putting it in |
| `BootImage.StrippedSame` | src/boot/installboot.c:224-226 | stripping the symbol table changes nothing the layout depends on |
| `InstallBoot.CopyExec` | src/boot/installboot.c:171-190 | copies the bytes, pads them to a sector, and fails exactly if the file ends early |
| `InstallBoot.ReadHeader` | src/boot/installboot.c:93-123 | the header is read whole and accepted exactly for an executable |
| `InstallBoot.MakeImage` | src/boot/installboot.c:192-263 | the loop makes the specified image, which holds the bytes of the programs as `BootImage.AllPacked` says, exactly when every file is a whole executable |
| `InstallBoot.ExtractExec` | src/boot/installboot.c:265-279 | reading whole sectors and writing the last in part gives the segment without padding |
| `InstallBoot.ExtractImage` | src/boot/installboot.c:281-331 | the loop extracts the programs that the image is made up of, and fails exactly if it is not made up of any |
| `BootMemory.RawClear` | src/boot/bootimage.c:96-115 | the doubling copy clears exactly the bytes asked for |
| `BootMemory.CopyClears` | src/boot/bootimage.c:108-114 | copying cleared bytes right behind the cleared ones clears that many more |

## Left out

- CacheRuns.CacheTransparent: says nothing about disk errors, which are not modelled, or about blocks of the RAM disk while level 2 is on, which are the level's own store.
- BlockCache.FsCache.WriteScattered: takes for granted that the device transfers at least the first block of each request; otherwise the program's loop need not end.
- BlockCache.FsCache.Rahead: how many blocks rahead wants (seek position, file size, indirect blocks ahead) is a parameter; b_count is not limited to its width.
- Zones.FileSys.ReadMap: positions beyond the double indirect block are excluded; the program does not check for them there and would index past the indirect block.
- Zones.FileSys.WriteMap: positions beyond the double indirect block (EFBIG) are left out, and positions that have a zone: new_block, the only caller, asks read_map first. The zone passed in is one the caller has in hand.
- FileOps.WriteFile: where the size check does not work (O_APPEND, or more bytes than the largest file), the write must still fit the block map, as the program would index past an indirect block. User-copy failures are left out.
- FileRuns.Serve: stops before a request that would go past the block map (`FileRuns.HasRoom`).
- Truncate.Truncate: pipes are left out here, whose unused zone slots hold file positions.
- Inodes.PutKeeps: the zones of a removed file are the business of `Truncate`; times, owners and the layout of inode blocks are left out, and inodes on read-only devices are not changed.
- InodeTable.Table.PutInode: as for `Inodes.PutKeeps`, the call of truncate is not part of the table model.
- Directory.Dir.Search: ENTER is asked only for absent names; permissions and whether a new block can be had are parameters; the overflow of the slot count is left out.
- Directory.Dir.FillEntry: as for `Directory.Dir.Search`, the name is absent, and the inode number fits its field.
- NetPack.MemReq: enough buffers are free, so no client is asked to give some back; there is one buffer size.
- NetBuf.BufPool.DupAcc: an accessor is free, so no client is asked to give some back.
- NetBuf.BufPool.CutOut: enough accessors are free.
- NetOps.DelHead: enough accessors are free.
- NetPackets.Pack: enough buffers are free.
- NetPackets.Align: enough accessors and buffers are free; whether the data is aligned is a parameter, and of the alignment of the result nothing is said, only that its first bytes are in one piece of their own.
- NetAppend.Append: enough accessors and one buffer are free. The link of an accessor that is taken over or copied is cleared before, not after, the rest of its chain is given up.
- PipeServer.FileServer.ReadWrite: the chunks of one transfer are a single step; FIFOs opened by name and ends opened for both reading and writing are left out.
- LockRuns.Run: whether a wakeup lost by a failing unlock is made up for by a later one is left to `LockRuns.RevivedLosesNone`; the files an exiting process has open are part of the message.
- PipeRuns.DoPipe: the answer without an inode is taken to be ENFILE; which inode a pipe gets is left out.
- PipeRuns.Run: opening files, exec, dup2 and restarts of the server are not among the messages; inodes of closed pipes are not used again.
- LockServer.LockTable.LockOp: a waiter keeps the range computed when it was suspended until its call is served again; the flock structure is then the same, as the caller is blocked. Failures to copy it are left out.
- Timers.AlarmChain.ExpireTimers: the functions are finite scripts of set and cancel commands, the k-th call doing the k-th script and later ones nothing; the chain is a sequence, not linked records.
- KernelTimers.ClockTask.ExpTimers: as for the chain above; scheduling at the end of do_clocktick is left out.
- KernelTimers.ClockTask.ClockTick: as for `KernelTimers.ClockTask.ExpTimers`; a function that sets a timer that is already due leaves it active until the next tick.
- BootReader.RawFs.SameBlock: file systems in the byte order of the machine only, as the boot program requires; directory lookup of the boot program is left out.
- InstallBoot.MakeImage: a header length over the size of struct exec or under the minimum, and segments of 2 GiB or more, count as failures; the program would overrun its structure or go wrong in signed arithmetic. Labels and the printed table are left out.
- Disk drivers, disk errors, panics and reboot.
- Mounting, permissions, path walking across mount points, link, rename, and time stamps.
- Special files, console, boot monitor commands and messages.
- The TCP/IP server apart from its buffers and timers.
