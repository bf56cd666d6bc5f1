# Memory and files of the kernel, modelled and proved

This project models two parts of the kernel and two small ones beside them, and proves properties of the models
with Dafny 4.11.  `dafny verify dfyconfig.toml` checks all of it.

**Virtual memory with copy on write.**  Frames are counted by references (`FrameAllocator`, `PhysicalMemory`).
The three-level page tables of the Sv39 scheme (section 4.4 of the RISC-V Privileged Architecture, version 1.12)
lie in frames as bytes (`Sv39`, `PageTables`).  Address spaces have areas that get frames at once or on the first
access (`MemoryLayout`, `MemorySets`, `Loading`), are forked by sharing pages (`ForkProgress`, `Forking`) and dropped
(`Dropping`).  `CowSystem`, `CowSteps`, `CowFork` and `CowRuns` treat all processes as one machine and prove the main
theorem: over every run each process reads exactly the bytes it would read if every fork had copied all pages.
`Kernel` holds the address spaces of all processes as objects; the contracts of its operations say which runs of that
machine they are, and `RanOn` puts them together.  `UserBuffers` is about memory of a process seen from the kernel.

**The FAT32 file system** (Microsoft FAT32 File System Specification, version 1.03).  From the bottom: the block cache
(`BlockCaches`), the geometry and the table as bytes (`FatVolumes`), chains and what every step keeps of them
(`FatChains`), the walkers and the scan (`FatManagers`), allocation (`FatAllocation`, `FileSystems`), files as bytes
(`ChainBytes`, `VirtFiles`), names (`LongNames`, `ShortNames`, `DirEntries`) and directories.  A directory is seen in
three ways: as bytes of a file, as a sequence of entries (`DirectoryEntries`), and as a list of files with remains of
deleted ones between them (`DirectoryContents`).  `DirectoryRuns` proves what every run of creations, removals and
changes keeps; `Directories` has the operations themselves, and `DirectoryTrees` what they mean for the directory above.

**The pipe** (`Pipes`): a ring buffer shared by readers and writers that yield in the middle of a call.
**A checksum** (`Adler`): Adler-32 (section 2.2 of RFC 1950) with the remainder taken once per chunk.

How the source is rendered:

- Objects that change in place are classes, and their methods keep the loops and branches of the source.  Each method
  states its whole effect by functions on values; the properties are lemmas about those values.
- A panic of the source is a result: `Outcome.Panicked` for running out of frames, `None` or a constructor of a result
  datatype elsewhere.  A panic that cannot happen has no result; the proof shows it unreachable.
- A disk is a map from block numbers to blocks of 512 bytes, memory a map from frame numbers to pages of 4096 bytes.
- Properties that the code does not have are stated by the exact condition under which it does: `CloneExactIff`,
  `CowFaultRightIff`, `AllocationSucceedsIff`, `OffsetIsFirstSector`, `ShortNameReadBackIff`, `NewFileFoundIff`,
  `FoundIsNewIff`, `RemovedIsGoneIff`, `UniqueAfterCreate`, `WriteReturnsIff`.

Where the code and what it says of itself differ, the model follows the code:

- `remap_cow` leaves the COW bit set, so a writable page may carry it (kernel/src/mm/page_table.rs:168-175).  What holds
  is that a writable page has a frame of its own.
- The heap bound of `check_lazy` is inclusive (kernel/src/task/task.rs:566): at the address just past a page-aligned heap a
  frame is mapped outside the heap area.  `CheckLazy` states this case; the theorems about runs exclude that address.
- A read of a file is bounded by its clusters and not by its size (crates/fat32/src/vf.rs:250-254).
- A file that is removed by its short name leaves its long entries behind (crates/fat32/src/dir.rs:324).
- The short alias of a long name loses its extension when it is formatted (crates/fat32/src/dir.rs:132-133).
- A pipe write whose last byte fills the ring waits for a reader before it returns (kernel/src/fs/pipe.rs:167-190).

## Model

| member | source | states |
|---|---|---|
| FrameAllocator.StackFrameAllocator.Init | kernel/src/mm/frame_allocator.rs:82-86 | after `init` the allocator hands out from the first frame of the range, nothing is recycled or counted |
| FrameAllocator.StackFrameAllocator.Alloc | kernel/src/mm/frame_allocator.rs:98-109 | a recycled frame first, then the next fresh one, and nothing exactly when both are used up; the frame given out has count 1 and had none before |
| FrameAllocator.StackFrameAllocator.Dealloc | kernel/src/mm/frame_allocator.rs:110-137 | the count goes down and the frame is recycled exactly when it reaches zero; which of the two panics is reached, and when |
| FrameAllocator.StackFrameAllocator.AddRef | kernel/src/mm/frame_allocator.rs:141-145 | the count goes up by one in a byte |
| FrameAllocator.StackFrameAllocator.EnquireRef | kernel/src/mm/frame_allocator.rs:146-150 | the count of the frame |
| FrameAllocator.AllocKeepsPartition | kernel/src/mm/frame_allocator.rs:98-109 | counted and recycled frames stay disjoint, without duplicates, and together all frames handed out so far |
| FrameAllocator.DeallocKeepsPartition | kernel/src/mm/frame_allocator.rs:110-137 | the same for giving a frame back; the panic of a frame that was never allocated cannot be reached |
| FrameAllocator.NewTrackerKeepsCounted | kernel/src/mm/frame_allocator.rs:33-41 | a new tracker gets a frame no live tracker has, and the count of every frame stays the number of its live trackers |
| FrameAllocator.DropTrackerKeepsCounted | kernel/src/mm/frame_allocator.rs:52-56 | the same when a tracker is dropped |
| FrameAllocator.CloneExactIff | kernel/src/mm/frame_allocator.rs:57-61 | counts are bytes: cloning a tracker keeps the count right if and only if fewer than 255 trackers of the frame are live |
| FrameAllocator.RunsKeepCounted | kernel/src/mm/frame_allocator.rs:30-61 | over every sequence of new, cloned and dropped trackers counts are numbers of live trackers and the partition holds |
| FrameAllocator.InitialCounted | kernel/src/mm/frame_allocator.rs:82-86 | where such runs begin |
| PhysicalMemory.Ram.AllocFrame | kernel/src/mm/frame_allocator.rs:30-46 | a new frame is zeroed and its count is 1; only an empty allocator panics |
| PhysicalMemory.Ram.CloneTracker | kernel/src/mm/frame_allocator.rs:57-61 | one more reference, no byte of memory changes |
| PhysicalMemory.Ram.DropTracker | kernel/src/mm/frame_allocator.rs:52-56 | one reference less, the frame is free when it was the last, no byte of memory changes |
| Sv39.DecodeEncode | kernel/src/mm/page_table.rs:283-334 | packing a frame number and flags into a page table entry and unpacking gives them back |
| Sv39.DecodeSetFlagBits | kernel/src/mm/page_table.rs:351-354 | replacing the flag byte keeps the frame number and the software bits above it |
| Sv39.ComputeIndexes | kernel/src/mm/address.rs:159-167 | the loop of shifts yields the three nine-bit indexes, the highest first |
| Sv39.IndexesInjective | kernel/src/mm/address.rs:159-167 | different page numbers of 27 bits have different indexes |
| Sv39.EmptyTree | kernel/src/mm/page_table.rs:38-57 | a zeroed root frame is a tree that maps nothing |
| Sv39.AddTable | kernel/src/mm/page_table.rs:68-97 | hooking in a zeroed frame as a table keeps the tree and every binding |
| Sv39.PutLeaf | kernel/src/mm/page_table.rs:119-135 | writing a leaf entry changes the binding of exactly one page number |
| PageTables.PageTable.constructor | kernel/src/mm/page_table.rs:38-57 | a new table binds nothing and owns its root frame |
| PageTables.PageTable.FindPteCreate | kernel/src/mm/page_table.rs:68-97 | the place of the leaf entry, with missing tables created; no binding changes |
| PageTables.PageTable.FindPte | kernel/src/mm/page_table.rs:98-118 | the place of the leaf entry, or nothing if a table on the way is missing |
| PageTables.PageTable.Map | kernel/src/mm/page_table.rs:119-128 | exactly the one binding is added, and only table frames are taken; mapping a mapped page panics, and nothing else does but an empty allocator |
| PageTables.PageTable.Unmap | kernel/src/mm/page_table.rs:129-135 | exactly the one binding is removed |
| PageTables.PageTable.Translate | kernel/src/mm/page_table.rs:136-140 | lookup in the finite map from page numbers to frame numbers and flags |
| PageTables.PageTable.SetFlags | kernel/src/mm/page_table.rs:164-167 | the flags of the one binding change, its frame does not; a page that was not mapped gets what the flags say, or panics without a frame for its tables |
| PageTables.PageTable.SetCow | kernel/src/mm/page_table.rs:156-159 | the COW bit of the one binding is set; a page that is not mapped stays so, but may get its tables |
| PageTables.PageTable.ResetCow | kernel/src/mm/page_table.rs:160-163 | the COW bit of the one binding is cleared; a page that is not mapped stays so, but may get its tables |
| PageTables.PageTable.RemapCow | kernel/src/mm/page_table.rs:168-175 | the bytes are copied, the binding gets the new frame and becomes writable, and keeps its COW bit; a page that is not mapped stays so |
| PageTables.BindingsFrame | kernel/src/mm/page_table.rs:68-140 | bindings depend on the frames of the tables only |
| MemoryLayout.AreaFlags | kernel/src/mm/page_table.rs:223-251 | the entry flags of an area allow writes exactly if its permission does, and are valid |
| MemoryLayout.ProtFlags | kernel/src/mm/page_table.rs:252-280 | the same for the protection of a mapping |
| CowSystem.HoldersAt | kernel/src/mm/frame_allocator.rs:52-61 | a frame is held by its trackers in all address spaces, counted one space at a time |
| CowSystem.ExactAfter | kernel/src/mm/frame_allocator.rs:52-61 | a change in one space that moves counts by its own trackers keeps every count the number of trackers of all spaces |
| CowSteps.OnePage | kernel/src/mm/memory_set.rs:570-618 | a frame with count 1 backs one page of one space |
| CowSteps.PopulatedEffect | kernel/src/mm/vm_area.rs:77-100 | new frames for untouched pages keep the order of the space and the rest of the machine |
| CowSteps.UpgradedEffect | kernel/src/mm/memory_set.rs:570-581 | making a page writable that has the last reference keeps the machine in order |
| CowSteps.BrokenEffect | kernel/src/mm/memory_set.rs:582-616 | moving a shared page to a new frame keeps the machine in order: one reference of the old frame is gone |
| CowSteps.BrokenBytes | kernel/src/mm/memory_set.rs:582-616 | after it, the page reads the same bytes, and so does every other page |
| CowSteps.StoredEffect | kernel/src/task/task.rs:540-563 | a store into a writable page is seen by that page of that process only |
| CowFork.ForkStep | kernel/src/mm/memory_set.rs:411-541 | a fork keeps the machine in order, and its child reads the bytes of its parent at that moment |
| CowFork.ExitStep | kernel/src/mm/frame_allocator.rs:52-56 | dropping all trackers of a space keeps the machine of the others in order |
| CowRuns.StepRefines | kernel/src/mm/memory_set.rs:411-618 | each step of the sharing machine is the same step of the machine where every process owns copies |
| CowRuns.CowRefinesEagerCopy | kernel/src/mm/memory_set.rs:411-618 | over every run of creations, lazy page-ins, loads, forks, COW faults, stores and exits every process reads exactly what it would read had each fork copied all pages |
| CowRuns.WritableIsPrivate | kernel/src/mm/memory_set.rs:570-618 | in every reachable state a writable page lies in a frame with count 1 that no other page of any process shows |
| CowRuns.RanIff | kernel/src/mm/memory_set.rs:411-618 | from a state in order, what the contracts of the kernel objects say (`Ran`) is exactly that there is a run of the machine over those events, and it ends in order |
| CowRuns.RanOn | kernel/src/mm/memory_set.rs:411-618 | such runs go on from where others ended, so the contracts of any sequence of calls make one run |
| CowRuns.CowFaultRightIff | kernel/src/mm/memory_set.rs:570-581 | a COW fault always makes the page writable, which is right if and only if its area is writable |
| CowRuns.BootState | kernel/src/mm/frame_allocator.rs:82-86 | the state after boot, without processes, is in order |
| MemorySets.MemorySet.LazyAllocHeap | kernel/src/mm/memory_set.rs:624-628 | an untouched heap page gets a zeroed frame |
| MemorySets.MemorySet.LazyAllocStack | kernel/src/mm/memory_set.rs:629-635 | an untouched stack page gets a zeroed frame |
| MemorySets.MemorySet.LazyMmap | kernel/src/mm/memory_set.rs:732-750 | an untouched page of an anonymous mapping gets a zeroed frame and is marked valid |
| MemorySets.MemorySet.CowAlloc | kernel/src/mm/memory_set.rs:570-618 | with the last reference the page becomes writable in place, else it moves to a copy; the tracker is replaced in the area that owns the page |
| MemorySets.MemorySet.CheckLazy | kernel/src/task/task.rs:540-579 | the dispatch of a page fault between COW, stack, heap and mappings, with the result codes, and the address just past the heap that the inclusive bound lets through |
| Loading.SegmentPageAt | kernel/src/mm/vm_area.rs:152-183 | byte for byte: file bytes from the start address on for the length of the data, zero elsewhere in the area |
| Loading.InflatePagetable | kernel/src/mm/vm_area.rs:77-100 | every page of the area gets a zeroed frame of its own |
| Loading.CopyData | kernel/src/mm/vm_area.rs:152-183 | the page loop with its running offsets fills the area as that formula says, whatever the page offset and the number of pages |
| Loading.InsertAndMap | kernel/src/mm/memory_set.rs:124-131 | the area is mapped, filled and owned by the address space |
| Loading.PlaceStackAndHeap | kernel/src/mm/memory_set.rs:374-400 | stack and heap areas are declared, apart from the others, and without frames |
| Loading.MapAnonymous | kernel/src/mm/mmap.rs:34-57 | the pages of a mapping are declared behind the last one, without frames |
| Forking.ShareRange | kernel/src/mm/memory_set.rs:491-513 | the loop over a lazily mapped range shares the pages that are mapped, in both tables |
| Forking.ShareMappings | kernel/src/mm/memory_set.rs:473-490 | the loop over the pages of mappings shares those that are valid |
| Forking.ForkArea | kernel/src/mm/memory_set.rs:424-469 | one area: trap context pages are copied, program pages shared |
| Forking.FromCopyOnWrite | kernel/src/mm/memory_set.rs:411-541 | the three loops together make a fork: every private page is shared read-only with the COW bit in both tables and counted once more, trap context pages are copies |
| Dropping.DropFrameMap | kernel/src/mm/frame_allocator.rs:52-56 | dropping the trackers of one area takes one reference per page and no more |
| Dropping.DropSpace | kernel/src/mm/frame_allocator.rs:52-56 | dropping an address space takes exactly its references, and frees its tables |
| Kernel.Kernel.Fault | kernel/src/task/task.rs:540-579 | a fault that is served is a run of one page-in or COW fault of the machine above; no other process is touched; which faults are served |
| Kernel.Kernel.UserStore | kernel/src/task/task.rs:540-579 | a store of a process is a run of the machine: the store, after the fault if the entry does not allow it; in the machine of copies it is that store, and when it is refused nothing changes |
| Kernel.Kernel.UserLoad | kernel/src/task/task.rs:540-579 | a load gives the byte of the machine of copies; on the way there is at most one fault, a run that changes no byte of anyone |
| Kernel.Kernel.Clone | kernel/src/mm/memory_set.rs:411-541 | fork as a run of one step, on the objects of all processes |
| Kernel.Kernel.Remove | kernel/src/mm/frame_allocator.rs:52-56 | exit as a run of one step |
| Kernel.Kernel.Spawn | kernel/src/mm/memory_set.rs:45-77 | a bare address space with the two trampolines as a run of one step |
| Kernel.Kernel.LoadArea | kernel/src/mm/memory_set.rs:124-131 | loading a segment as a run of two steps: its pages are declared, then get frames with its bytes |
| Kernel.Kernel.PlaceLazyAreas | kernel/src/mm/memory_set.rs:374-400 | declaring stack and heap as a run of one step |
| Kernel.Kernel.Mmap | kernel/src/mm/mmap.rs:34-57 | declaring an anonymous mapping as a run of one step |
| UserBuffers.TranslatedBytesBuffer | kernel/src/mm/mod.rs:56-86 | nonempty slices of frames, page by page, for exactly the addresses of the range |
| UserBuffers.SlicedReads | kernel/src/mm/mod.rs:56-86 | put together, those slices are the bytes at the addresses |
| UserBuffers.CopyIn | kernel/src/mm/mod.rs:141-163 | the bytes at the addresses from `src` on |
| UserBuffers.CopyOut | kernel/src/mm/mod.rs:164-184 | afterwards the addresses hold the value, so `copyin` gives it back; no other byte of memory changes |
| UserBuffers.UserBuffer.Write | kernel/src/mm/user_buffer.rs:25-39 | as many bytes as fit go to the front of the concatenation; the exact case in which it panics; nothing outside the slices changes |
| UserBuffers.UserBuffer.WriteAt | kernel/src/mm/user_buffer.rs:56-90 | all bytes go to the offset in the concatenation, or it panics: exactly when they do not fit, or are none before the end |
| UserBuffers.UserBuffer.Read | kernel/src/mm/user_buffer.rs:92-106 | as many bytes as fit come from the front of the concatenation; the exact case in which it panics |
| UserBuffers.UserBuffer.Len | kernel/src/mm/user_buffer.rs:18-24 | the length of the concatenation |
| UserBuffers.UserBufferIterator.Next | kernel/src/mm/user_buffer.rs:127-143 | yields the places of the bytes of the concatenation, one after the other, and then nothing |
| UserBuffers.PlaceReads | kernel/src/mm/user_buffer.rs:127-143 | the byte at the place it yields for position k is byte k of the concatenation |
| UserBuffers.GatherStore | kernel/src/mm/user_buffer.rs:25-39 | a byte stored through one slice changes that byte of the concatenation only |
| BlockCaches.BlockCacheManager.GetBlockCache | crates/fat32/src/cache.rs:118-143 | a hit or a load moves the block to the front; at 64 entries the least recent one is written back; the disk that users see stays the same |
| BlockCaches.BlockCacheManager.ReadBlock | crates/fat32/src/cache.rs:25-29 | a read sees the last modification, evicted or not |
| BlockCaches.BlockCacheManager.ModifyBlock | crates/fat32/src/cache.rs:30-34 | exactly the bytes written change on the disk that users see |
| BlockCaches.BlockCacheManager.SyncAll | crates/fat32/src/cache.rs:145-149 | afterwards the device is the disk that users see |
| BlockCaches.EvictKeeps | crates/fat32/src/cache.rs:100-108 | dropping the least recent entry with its write-back keeps the disk that users see |
| BlockCaches.InsertKeeps | crates/fat32/src/cache.rs:118-143 | loading an uncached block keeps it |
| BlockCaches.PromoteKeeps | crates/fat32/src/cache.rs:118-143 | moving an entry to the front keeps it |
| BlockCaches.ModifyShows | crates/fat32/src/cache.rs:71-90 | a modified entry shows in that block only |
| BlockCaches.SyncKeeps | crates/fat32/src/cache.rs:91-98 | writing an entry back keeps it |
| BlockCaches.UncachedIsCurrent | crates/fat32/src/cache.rs:118-143 | a block that is not cached is current on the device |
| BlockCaches.CleanShowsDevice | crates/fat32/src/cache.rs:145-149 | with no modified entry left the device is the disk that users see |
| FatVolumes.OffsetIsFirstSector | crates/fat32/src/bpb.rs:23-56 | the two formulas for the start of a cluster agree if and only if there is no root directory region |
| FatVolumes.ClusterBlocksApart | crates/fat32/src/bpb.rs:54-56 | blocks of different clusters are different |
| FatVolumes.EntriesApart | crates/fat32/src/fat.rs:141-154 | table entries of different clusters do not overlap |
| FatVolumes.SetEntry | crates/fat32/src/fat.rs:211-219 | writing an entry changes the table at that cluster only |
| FatChains.ChainUnique | crates/fat32/src/fat.rs:74-93 | a cluster begins at most one chain, so all walkers see the same one |
| FatChains.JoinChains | crates/fat32/src/vf.rs:376-389 | linking the last cluster of one chain to the first of another makes one chain |
| FatChains.CutChain | crates/fat32/src/vf.rs:429-441 | ending a chain early makes the front part a chain |
| FatChains.StepKeeps | crates/fat32/src/vf.rs:335-443 | growing, shrinking and deleting a file keep all chains ended, acyclic and apart, the queue free, and the free count in step with the table |
| FatChains.RunsKeepVolume | crates/fat32/src/fs.rs:173-208 | the same over every run, and the free count minus the number of free entries is constant |
| FatManagers.FATManager.FindBlankCluster | crates/fat32/src/fat.rs:155-180 | the least free cluster above the cursor, across blocks of the table |
| FatManagers.FATManager.GetBlankCluster | crates/fat32/src/fat.rs:181-187 | the oldest recycled cluster, or the scan if there is none |
| FatManagers.FATManager.Recycle | crates/fat32/src/fat.rs:188-193 | the cluster is queued last |
| FatManagers.FATManager.GetNextCluster | crates/fat32/src/fat.rs:194-210 | the entry of the table, nothing at the end mark or above, and the panic exactly for an entry below 2 |
| FatManagers.FATManager.SetNextCluster | crates/fat32/src/fat.rs:211-219 | the entry of that cluster and nothing else |
| FatManagers.FATManager.GetClusterAt | crates/fat32/src/fat.rs:220-232 | element `index` of the chain, and nothing behind its end |
| FatManagers.FATManager.ClusterChainTail | crates/fat32/src/fat.rs:233-246 | the last element of the chain |
| FatManagers.FATManager.GetAllClusterId | crates/fat32/src/fat.rs:247-259 | the chain |
| FatManagers.FATManager.ClusterChainLen | crates/fat32/src/fat.rs:260-272 | the length of the chain |
| FatManagers.ClusterChain.Generate | crates/fat32/src/fat.rs:74-93 | the vector becomes the chain; each turn takes a cluster that was not in it |
| FatManagers.ClusterChain.Truncate | crates/fat32/src/fat.rs:95-98 | the front part, or all of a shorter vector |
| FatAllocation.TakeAny | crates/fat32/src/fat.rs:181-187 | the next cluster of an allocation, queued or scanned, is new, and the rest is still to be had |
| FatAllocation.FinishTaking | crates/fat32/src/fs.rs:173-196 | with the last entry ended the clusters taken are one chain: the queued ones in order, then others |
| FatAllocation.AllocationSucceedsIff | crates/fat32/src/fat.rs:155-187 | for every table, queue, cursor and number: that many clusters can be handed out one after the other, queue first and then scanned from the moving cursor, if and only if the queue and the free clusters above the last queued one, or above the cursor, are enough |
| FatAllocation.FreeButBehind | crates/fat32/src/fat.rs:155-180 | a table with two free clusters of which not one can be had |
| FileSystems.DiskAllocationSucceedsIff | crates/fat32/src/fs.rs:173-196 | the same of the table on any disk |
| FileSystems.FileSystem.SetFreeClusters | crates/fat32/src/fs.rs:44-51 | in memory and in the information sector, nothing else |
| FileSystems.FileSystem.ClearCluster | crates/fat32/src/fs.rs:162-171 | that cluster reads zero, all other data and the table are kept |
| FileSystems.FileSystem.AllocClusterChain | crates/fat32/src/fs.rs:173-196 | nothing exactly if fewer clusters are counted free; else the head of an ended chain of exactly that many distinct clusters, those that queue and scan hand out, which were free and now read zero |
| FileSystems.FileSystem.DeallocCluster | crates/fat32/src/fs.rs:197-208 | the entries are free, the clusters queued in order, and counted |
| ChainBytes.WriteShows | crates/fat32/src/vf.rs:284-334 | writing part of a block of a chain changes those bytes of the concatenation and no other |
| ChainBytes.BytesOfJoined | crates/fat32/src/vf.rs:376-389 | the bytes of a longer chain are those of its parts, one after the other |
| DirEntries.FirstClusterStored | crates/fat32/src/entry.rs:199-206 | the two halves of the first cluster put together again; no other field changes |
| DirEntries.FileSizeStored | crates/fat32/src/entry.rs:218-223 | the size stored and read; no other field changes |
| DirEntries.DeletedEntry | crates/fat32/src/entry.rs:213-217 | a deleted entry is marked, without clusters and size, and otherwise as before |
| VirtFiles.VirtFile.ReadSde | crates/fat32/src/vf.rs:137-148 | the entry at its place on the disk, or that of the root directory |
| VirtFiles.VirtFile.WriteSde | crates/fat32/src/vf.rs:149-160 | exactly the bytes of the entry change |
| VirtFiles.VirtFile.ReadAt | crates/fat32/src/vf.rs:225-283 | the least of the length asked for and what the clusters have behind the offset, whatever the size in the entry; exactly those bytes of the concatenation |
| VirtFiles.VirtFile.WriteAt | crates/fat32/src/vf.rs:284-334 | the range holds the buffer, all else of the concatenation is as before, and zero in new clusters; data of other chains, the table entries of other files and the neighbours of the directory entry are kept |
| VirtFiles.VirtFile.IncreaseSize | crates/fat32/src/vf.rs:335-402 | exactly the missing clusters are taken and linked, the vector is the chain, size and first cluster are in the entry |
| VirtFiles.VirtFile.ModifySize | crates/fat32/src/vf.rs:403-443 | the vector is the chain of as many clusters as the size takes, a prefix of the old one or longer; the bytes that stay are kept |
| VirtFiles.VirtFile.Shrink | crates/fat32/src/vf.rs:410-441 | the clusters behind the new end are free and queued, the last one left ends the chain |
| VirtFiles.VirtFile.ClearContent | crates/fat32/src/vf.rs:105-118 | all clusters are free, the entry has none; the vector is stale |
| VirtFiles.VirtFile.ClearDirEntry | crates/fat32/src/vf.rs:95-104 | exactly the first bytes of the long entries and the short entry change |
| VirtFiles.VirtFile.Clear | crates/fat32/src/vf.rs:445-464 | its entries are deleted, its clusters given back, and nothing else changes |
| VirtFiles.VirtFile.DirentClusterPos | crates/fat32/src/vf.rs:202-215 | the cluster of the byte by the table, and the offset there |
| VirtFiles.VirtFile.DirentBlockPos | crates/fat32/src/vf.rs:183-201 | the block and offset from which `read_at` copies that byte |
| VirtFiles.GrowStep | crates/fat32/src/vf.rs:376-389 | hanging new clusters behind those of a file is a step of the volume |
| VirtFiles.GrownBytes | crates/fat32/src/vf.rs:335-402 | after growth the file reads as before, and zeros behind |
| VirtFiles.ShrunkTable | crates/fat32/src/vf.rs:410-441 | after shrinking table, entry and vector agree |
| LongNames.LongNameSplit | crates/fat32/src/lib.rs:100-119 | chunks of 13 units, the last one padded, none empty when the length is a multiple of 13 |
| LongNames.LongEntryUnpacks | crates/fat32/src/entry.rs:336-371 | the chunk comes back from its three fields; order, attribute and checksum are where they are read |
| LongNames.NameUnits | crates/fat32/src/entry.rs:353-360 | the units before the first zero |
| LongNames.LongNameRoundTrip | crates/fat32/src/lib.rs:100-119 | splitting, packing, storing in reverse and prepending on reading is the identity for every name without a zero unit |
| LongNames.SplitInjective | crates/fat32/src/lib.rs:100-119 | different names have different chunks |
| ShortNames.ShortNameFormat | crates/fat32/src/lib.rs:138-159 | base and extension in upper case, cut or filled with spaces |
| ShortNames.GetNameUppercase | crates/fat32/src/entry.rs:227-247 | what an entry shows: base, and behind a dot the extension if there is one |
| ShortNames.ShortNameRoundTrip | crates/fat32/src/entry.rs:129-147 | a valid 8.3 name comes back in upper case |
| ShortNames.ShortNameReadBackIff | crates/fat32/src/lib.rs:122-159 | any name whose parts fit comes back in upper case if and only if it has no dot, or one that is not at the end, or is `.` or `..` |
| ShortNames.KeptIff | crates/fat32/src/lib.rs:122-136 | nothing of a name is dropped by splitting it if and only if its dots are where that says |
| ShortNames.GenerateShortName | crates/fat32/src/lib.rs:162-197 | six characters of the base, `~1`, spaces, three of the extension |
| ShortNames.AliasFormatted | crates/fat32/src/lib.rs:138-197 | formatting that short name drops its extension |
| ShortNames.GenCheckSum | crates/fat32/src/entry.rs:163-176 | the rotating sum over the eleven bytes of the name |
| ShortNames.CheckSumTellsOneByte | crates/fat32/src/entry.rs:163-176 | names that differ in one byte have different checksums |
| DirectoryContents.ShortHitIs | crates/fat32/src/dir.rs:311-345 | the search by short names stops at short entries of files only, although it looks at every entry |
| DirectoryContents.LongHitIs | crates/fat32/src/dir.rs:222-309 | the search by long names stops only where the entries of a file with that name begin |
| DirectoryContents.SearchIsLookup | crates/fat32/src/dir.rs:347-355 | the search through the entries finds the first file of the directory that the name is for |
| DirectoryContents.NoHitNoFile | crates/fat32/src/dir.rs:347-355 | and if it finds nothing there is no such file |
| DirectoryContents.NewFileFoundIff | crates/fat32/src/dir.rs:127-179 | a created file is found by its name if and only if the name is a long one, or has no dot, or one that is not at the end, or is `.` or `..` |
| DirectoryContents.FoundIsNewIff | crates/fat32/src/dir.rs:181-187 | the search at the end of `create` finds the new file if and only if no file of whatever type had the name and its dots fit; else it finds the old one, which is then taken for the new |
| DirectoryContents.DotAtTheEndIsLost | crates/fat32/src/dir.rs:162-175 | a name with a dot at the end is not found again |
| DirectoryContents.NewFileAnswersTo | crates/fat32/src/dir.rs:127-179 | which other names find it: as a short name, what its short entry shows |
| DirectoryContents.InsertHolds | crates/fat32/src/dir.rs:106-179 | entries written at the first empty one make one more file, and behind it everything is zero |
| DirectoryContents.RemoveHolds | crates/fat32/src/dir.rs:82-90 | deleting the entries of a file leaves the other files as they are |
| DirectoryContents.LookupLive | crates/fat32/src/dir.rs:347-355 | deleted entries and orphans take no part in lookups |
| DirectoryEntries.EntryByte | crates/fat32/src/vf.rs:183-200 | no entry crosses a block: its bytes in the block are those of the concatenation |
| DirectoryEntries.EntriesWritten | crates/fat32/src/vf.rs:284-334 | writing an entry, with growth, changes that entry and adds zeros |
| DirectoryEntries.ClearedEntries | crates/fat32/src/vf.rs:445-453 | what `clear` does to the entries of the directory: exactly those of the file are deleted |
| DirectoryEntries.OwnEntryChanged | crates/fat32/src/vf.rs:149-160 | a file that changes its entry changes no other entry of its directory |
| DirectoryRoom.RoomAfterWrite | crates/fat32/src/fs.rs:173-196 | room for all entries stays room for the rest when some clusters were taken |
| DirectoryRuns.StepRefines | crates/fat32/src/dir.rs:82-217 | creation, removal and change of an entry are those of the list of files |
| DirectoryRuns.RunsKeepDirectory | crates/fat32/src/dir.rs:82-217 | the same over every run, and everything behind the last entry stays zero |
| DirectoryRuns.CreatedIsFound | crates/fat32/src/dir.rs:106-179 | an absent name is found once created, names found before still are, and which absent names come to be found |
| DirectoryRuns.RemovedIsGoneIff | crates/fat32/src/dir.rs:82-90 | a removed name is not found any more if and only if no other file answered to it |
| DirectoryRuns.OthersAfterRemove | crates/fat32/src/dir.rs:82-90 | all other files are found as before |
| DirectoryRuns.UniqueAfterCreate | crates/fat32/src/lib.rs:162-197 | no two files come to answer to one name, except when the alias of a long name is taken |
| DirectoryRuns.UniqueAfterRemove | crates/fat32/src/dir.rs:82-90 | and none when a file is removed |
| DirectoryRuns.RunsKeepUnique | crates/fat32/src/dir.rs:82-217 | over every run that gives the name to no long name as an alias, at most one file answers to it |
| DirectoryRuns.RemovedIsAbsent | crates/fat32/src/dir.rs:82-90 | after such a run that ends with the removal of a name, no search of the entries finds it; for long names that is every run |
| DirectoryRuns.TouchKeepsLookups | crates/fat32/src/vf.rs:216-221 | changes of the first cluster and the size change no lookup |
| DirectoryRuns.ListedAll | crates/fat32/src/vf.rs:483-518 | following the listing from the start ends and yields the files that are there, in order, each once |
| DirectoryRuns.ListedUnderItsName | crates/fat32/src/vf.rs:483-518 | a file is listed under the name it was created with |
| Directories.ReadEntry | crates/fat32/src/vf.rs:225-283 | a whole entry, or nothing at the end of the clusters |
| Directories.EmptyEntryIndex | crates/fat32/src/dir.rs:359-377 | the first entry whose first byte is zero, or the end |
| Directories.FoundFile | crates/fat32/src/dir.rs:279-304 | the handle has the places of the entries, the type, and the chain from the first cluster |
| Directories.GenerateClusterChain | crates/fat32/src/vf.rs:81-91 | the chain that begins at the first cluster of the entry |
| Directories.FindBySfn | crates/fat32/src/dir.rs:311-345 | the first entry in use that shows the name in upper case |
| Directories.FindByLfn | crates/fat32/src/dir.rs:222-309 | the first place where chunks, order, attributes and checksum fit and the short entry is in use; nothing only if there is none, although it gives up early at the end |
| Directories.FindByName | crates/fat32/src/dir.rs:347-355 | the first hit of the search that the name calls for |
| Directories.WriteEntry | crates/fat32/src/dir.rs:156-159 | one entry is stored, the directory grows for it, the volume stays in order |
| Directories.WriteNewFile | crates/fat32/src/dir.rs:127-179 | the long entries in reverse order and the short one, from the empty entry on, nothing else |
| Directories.CreateEntries | crates/fat32/src/dir.rs:106-187 | an existing name of that type is refused and nothing changes; else the file is added, and reported exactly if it is found; the directory is ready for the next call |
| Directories.InitDirectory | crates/fat32/src/dir.rs:188-213 | a new directory has one cluster with the entries for itself and its parent, and zeros |
| Directories.MakeDirectory | crates/fat32/src/dir.rs:188-213 | in the directory it is made in only its own entry changes, by its first cluster |
| Directories.Create | crates/fat32/src/dir.rs:106-217 | `create` for files and directories as steps of the directory; it and a directory made in it are in order afterwards, ready for the next call, with one spare cluster less; no other data on the disk changes |
| Directories.RoomInside | crates/fat32/src/vf.rs:335-402 | a directory always has room inside its clusters, so a new one has room for its first files |
| Directories.FileChangeIsTouch | crates/fat32/src/vf.rs:149-160 | whatever a file does to its entry, with its name kept, and to data elsewhere, is a change of one entry for the directory it is in |
| Directories.Remove | crates/fat32/src/dir.rs:82-90 | the first file that the name is for is removed and its clusters are given back, or nothing is found and nothing changes; the directory is in order afterwards if no other file had those clusters |
| Directories.DirInfo | crates/fat32/src/vf.rs:483-518 | the next file that is there: its name, where to go on, its first cluster and attributes; nothing exactly if there is no more |
| DirectoryTrees.AboveStaysInOrder | crates/fat32/src/vf.rs:149-160 | a directory stays in order through anything one of its files does to its own entry, with its name kept, and to the data of other files, which may grow, shrink, come or go |
| DirectoryTrees.CreateBelow | crates/fat32/src/dir.rs:106-217 | `create` in a directory inside another: both are in order afterwards, the one above with one entry changed, and so is a directory that was made |
| DirectoryTrees.WriteBelow | crates/fat32/src/vf.rs:284-334 | `write_at` on a file in a directory: the file holds the buffer, and the directory is in order with one entry changed |
| DirectoryTrees.RemoveBelow | crates/fat32/src/dir.rs:82-90 | `remove` in a directory inside another: the one above is as it was |
| Pipes.PipeRingBuffer.WriteByte | kernel/src/fs/pipe.rs:72-80 | the byte is appended to the contents of the ring |
| Pipes.PipeRingBuffer.ReadByte | kernel/src/fs/pipe.rs:81-90 | the first byte of the contents is taken |
| Pipes.PipeRingBuffer.AvailableRead | kernel/src/fs/pipe.rs:91-100 | the length of the contents, by head, tail and status |
| Pipes.PipeRingBuffer.AvailableWrite | kernel/src/fs/pipe.rs:101-108 | the room that is left |
| Pipes.PipeRingBuffer.ReadTurn | kernel/src/fs/pipe.rs:134-166 | what a reader takes between two yields |
| Pipes.PipeRingBuffer.WriteTurn | kernel/src/fs/pipe.rs:167-190 | what a writer puts between two yields |
| Pipes.RunsKeepFifo | kernel/src/fs/pipe.rs:134-190 | over every interleaving bytes delivered followed by the contents are the bytes accepted, and the contents have at most 4096 bytes |
| Pipes.ReadTakes | kernel/src/fs/pipe.rs:134-166 | in every run a read call gets the next stretch of the stream, as much as waits up to its room |
| Pipes.ReadsNothingIff | kernel/src/fs/pipe.rs:134-166 | the turn in which it returns with nothing: exactly if the bytes accepted are the bytes delivered and no writer is left or the yield failed |
| Pipes.ReadsNothing | kernel/src/fs/pipe.rs:134-166 | in every run from a new pipe, a read call with room that returned without a byte: everything accepted is delivered and no writer is left, for good, or its thread was told to stop while it gave way to an empty ring |
| Pipes.WritesAll | kernel/src/fs/pipe.rs:167-190 | in every run the bytes of a write call enter the stream in order, whoever writes in between, and a call that returned has handed over all of them, or its thread was told to stop at a full ring |
| Pipes.WriteReturnsIff | kernel/src/fs/pipe.rs:167-190 | in every run a write call returns exactly when what it has left is less than the room between the bytes accepted and those delivered |
| Adler.LzoAdler32 | testsuits/busybox/archival/lzop.c:509-536 | the chunked loops give the checksum defined with a remainder per byte, for every length, and no word overflows on the way |
| Adler.ChecksumComposes | testsuits/busybox/archival/lzop.c:509-536 | going on from an intermediate value is the checksum of the concatenation |
| Adler.ChunkFits | testsuits/busybox/archival/lzop.c:509-536 | within a chunk the sums stay below 2^32 |
| Adler.ChunkIsTight | testsuits/busybox/archival/lzop.c:509-536 | with one byte more they do not |

## Left out

- Kernel.Fault: excludes the address just past a page-aligned heap, where the code maps a frame outside the heap area (kernel/src/task/task.rs:566); `MemorySets.MemorySet.CheckLazy` states what happens there.
- Kernel.Clone: asks for at most 255 live trackers of each frame after the fork, because counts are bytes; `FrameAllocator.CloneExactIff` states what happens otherwise.
- Forking.FromCopyOnWrite: asks for at most 255 live trackers of each frame after the fork, as `Kernel.Clone` does.
- Kernel.LoadArea: asks that the pages of the area be vacant; otherwise mapping them panics (`PageTables.PageTable.Map`).
- Kernel.Mmap: mappings without a fixed address only.
- MemorySets.MemorySet.LazyMmap: anonymous mappings only.
- Kernel.UserStore: is about stores to pages of writable areas; a COW fault in a read-only area makes the page writable (`CowRuns.CowFaultRightIff`).
- Kernel.UserLoad: does not model the trampoline pages, and asks that a COW page be readable.
- UserBuffers.CopyIn: asks that the pages of the range be mapped.
- UserBuffers.CopyOut: asks for mapped pages in different frames; it is not a store in the sense of the COW theorem: the kernel writes through the table and breaks no sharing.
- UserBuffers.TranslatedBytesBuffer: is modelled for mapped pages; the source fetches unmapped ones with `check_lazy` first.
- FileSystems.FileSystem.AllocClusterChain: asks that the clusters counted free lie in the queue or above the cursor, because the scan has no end test (`FatAllocation.AllocationSucceedsIff`).
- FatManagers.FATManager.FindBlankCluster: asks for a free cluster above the cursor; without one the loop of the source has no end and reads on behind the table.
- FatManagers.FATManager.GetBlankCluster: the same when nothing is queued.
- VirtFiles.VirtFile.IncreaseSize: asks for room for the growth; the panic of a volume without it is not modelled.
- VirtFiles.VirtFile.WriteAt: room for the growth, sizes below 2^32, and one handle per file; a second handle would not see the new vector.
- VirtFiles.VirtFile.ModifySize: room for the growth; growing again after a truncation inside the last cluster shows the old bytes there, as in the source.
- BlockCaches.BlockCacheManager.GetBlockCache: each handle is dropped before the next request, so the least recent entry can always be dropped; the panic with 64 handles in use is not modelled.
- Directories.CreateEntries: the names and directories of `Directories.Create`.
- Directories.Create: names of ASCII characters without spaces, below 64 chunks (above, the mark of the last entry runs into the order), in a directory that has a cluster; creating a directory under the name of a plain file is left out, because the code then writes the entries of the directory into that file (`DirectoryContents.FoundIsNewIff`).
- Directories.Remove: the clusters in the entry are those of one file of the volume (`Belongs`), so no second file shares them; one name in one directory; walking paths (`find` with several components) is left out.  A directory is removed with its own clusters only, as in the source; files in it keep theirs.
- Directories.DirInfo: asks for an offset where the entries of a file begin: 0 or one that an earlier call returned.
- DirectoryContents.Holds: directories whose deleted entries were reused by another system, and names outside ASCII, are not covered: a long entry with other characters can be mistaken for a short one.
- DirectoryRuns.UniqueAfterCreate: aliases of long names are not made unique, as in the source.
- LongNames.LongNameRoundTrip: names are sequences of UTF-16 units; decoding to characters, with surrogate pairs cut by a chunk, is left out.
- Loading.MapAnonymous: mappings without a fixed address only; given another address the source maps at address 0.
- Loading.InsertAndMap: the pages of the area are vacant; the data are a sequence of bytes; reading them through a file or from memory is left out.
- Page numbers are the low 27 bits; sign extension of addresses, the U bit, the attribute bits of the hardware and TLB flushing are left out.
- Areas, mappings and their maps from pages to trackers are values inside the address space, as they are owned there; the order in which a map drops its trackers is arbitrary.
- Shared memory segments, file-backed mappings, `munmap` and fixed mappings: they rest on other parts or, for `munmap`, leave page table entries behind.
- Mappings marked as shared are treated as private ones, as the fork does.
- ELF parsing, `exec` and the preloaded program: the segments of a program are areas with data.
- A change of a directory entry is a read and a write of its block, where the source has one modification in the cache.
- The second copy of the table, time stamps, `stat`, `ls`, formatting a volume and FAT12/FAT16 are left out; the source does not maintain the second copy.
- `new_from_name_bytes` is left out; it puts the attribute of a file at offset 0x10 (crates/fat32/src/entry.rs:158).
- `read_to_kspace` and `write_from_kspace` of the pipe are the same loops over other buffers.
- Locks: each locked section is one step.
