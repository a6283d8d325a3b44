# Verified models of a RISC-V kernel's core

Dafny models of the algorithmic cores of a small multi-core RISC-V kernel, with proofs of
what those cores promise over every input and every run. `dafny verify dfyconfig.toml`
checks the whole project.

Code that updates memory in place is modelled by classes and methods with the same
branches and loops; each method is tied to a function or a statement on values, and the
hard properties are proved about those values. Protocols are step machines over any
number of threads and CPUs, with classes whose methods are the code between two points
where another CPU may intervene. Every invariant is established by a constructor or an
initial-state lemma; that of the file system is what mounting expects of an image, and
`EasyFs.EmptyImage` shows images that meet it.

| part | files | main results |
|---|---|---|
| Buddy page allocator | `Bits`, `BuddyCore`, `Buddy` | free and live blocks always tile the boot chunks exactly; the merge test is sound and complete in spite of stale `order` fields; the free lists are a function of the set of free pages, so freeing everything in any order restores the boot state; `Buddy.free` counts the free pages |
| Red-black tree | `RbShape`, `RbLayout`, `RbRules`, `RbTree` | on linked nodes with parent pointers, insertion keeps the red-black rules and places the node after all elements that compare less or equal; erasure removes exactly one element whatever the colours, and keeps the rules if and only if the node is not of one shape |
| Copy-on-write memory | `Cow`, `Sv39`, `Vm` | over every run of faults, forks, stores and releases each address space reads what it would with private copies; three-level tables stand for a partial map, translate page numbers digit by digit as Sv39 demands, and the stepped PTE pointer is always what a fresh walk returns; no page is ever lost |
| Block cache | `Links`, `Bio`, `BlockCache`, `BufHash` | for every interleaving with the flusher, requests read and write a flat array of bytes; writes while the flusher does not hold its lock are harmless if and only if they are to other blocks; the hash chains never hold two buffers of one block; a byte range is split correctly if and only if 32-bit arithmetic does not wrap |
| Readers-writer lock | `RwLock`, `RwLockCode` | exclusion, no lost wakeup, no deadlock, and who gets the lock under either priority; the code on linked wait queues does exactly these steps, its assertion and its panic included |
| Threads | `Semaphore`, `Sched`, `ThreadLists`, `Threads` | no thread runs on two CPUs or is on two lists, none is lost, dispatch and wakeup are FIFO, every critical section can be run to its end and then no lock is held, lists and queues change only under their locks, semaphore and mutex laws; the code on linked lists does exactly these steps |
| Slab and kmalloc | `Pow2Math`, `SlabCore`, `SlabLists`, `Slab` | on the buddy allocator above: live allocations never share a byte, `kfree` always takes the matching route, no panic of the free stack is reachable, a slab's node is linked to itself exactly when the slab serves a CPU, and each allocation fails exactly when the buddy lists cannot serve it; bit smearing computes the least power of two |
| Bitmap and easyfs files | `Bitmap`, `InodeMap`, `EasyFs` | every file refines a plain byte sequence, no block serves two places, allocation returns the least free index, and a write fails exactly when the blocks it needs outnumber the free ones |

`Links` (circular doubly linked lists), `Queues` (lists that partition things by where they are)
and `Wrappers` (Option) are shared.

## Findings

Where the code does not do what its comments or its purpose promise, the model follows the
code and the exact condition is proved.

- `rb_erase` (lib/rbtree.c:289-293) hands the detached node to the repair as `parent` when the
  successor is the direct right child. The black heights are then lost exactly when that
  successor is black and has no child (`RbTree.RbRoot.Erase`, `RbRules.LopsidedExample`).
- `bio_list_make` wraps in 32 bits for a range that reaches past the last block number or whose
  length from the start of the first block exceeds 2^32 (`Bio.BioListMake`).
- While `flush_bhash` writes a buffer back without holding the list's lock (kernel/dev/blk/flush.c:40-44
  and 53-59), any write to that block puts its node back on the dirty list, and the final `list_del`
  leaves the node pointing into a list that it is not on. The cache and its list stay consistent if
  and only if there is no such write, even one that changes nothing (`BlockCache.WritesInTheGap`,
  `BlockCache.GapExample`).
- `next_power_of_2` returns 0 above 2^63 and `math_order2` returns 0 above 2^31; `kmem_cache_create`
  works exactly for sizes 9 to 32768 (`Slab.CacheShape`).
- `bitmap_alloc` rejects only results above `size` (lib/bitmap.c:56). Under the bitmap's invariant
  the result is still below `size`; `bitmap_reset_start` runs outside it, and leaves bit `size` set
  exactly when no bit from `start` on is free and bit `size` is zero and in the last word
  (`Bitmap.Map.Reset`, `Bitmap.LeavesBitExample`).
- `buddy_init` gets every whole chunk above the kernel image except one that starts exactly at the
  end of the image, contrary to its comment on rounding up (`Buddy.BootSkips`, `Buddy.BootStart`).
- `efs_i_write` refuses a write that ends exactly at the maximal file size, so no file reaches it
  (`EasyFs.FileSystem.Write`).

## Model

| member | source | states |
|---|---|---|
| `Bits.XorIsFlip` | mm/mm.c:31-42 | XOR with 2^order, as find_buddy uses it, is flipping one bit of the page number |
| `Buddy.Allocator.FindBuddy` | mm/mm.c:31-42 | the sibling page number if it lies in memory, none otherwise |
| `BuddyCore.MergeTest` | mm/mm.c:133-137 | for a block in hand, "reference count 0 and order equals the level" holds of the sibling page if and only if the sibling block is on the free list of that level, although `order` is stale on interior pages |
| `BuddyCore.SiblingHeads` | mm/mm.c:123-145 | the alignment argument: the sibling page of any block is itself the head of some block |
| `BuddyCore.SharedPage` | mm/mm.c:74-181 | blocks are disjoint: two blocks that share a page are one block |
| `BuddyCore.TakeKeeps` | mm/mm.c:84-88 | taking a block off its list keeps the tiling |
| `BuddyCore.SplitKeeps` | mm/mm.c:91-104 | halving a block keeps the exact tiling of the boot chunks and no two free siblings |
| `BuddyCore.JoinKeeps` | mm/mm.c:133-145 | joining a block with its free sibling keeps the tiling |
| `BuddyCore.PutKeeps` | mm/mm.c:147-151 | putting a block whose sibling is not free on its list keeps the tiling and the merging |
| `BuddyCore.Canonical` | mm/mm.c:123-153 | two states with the same set of free pages hold the same blocks on every list |
| `BuddyCore.AllFreedCanonical` | mm/mm.c:123-181 | any two states with everything free hold the same blocks |
| `BuddyCore.Restored` | mm/mm.c:123-181 | freeing everything, in any order, restores the blocks of boot time |
| `BuddyCore.BootTiling` | mm/mm.c:156-181 | the boot-time lists tile the chunks |
| `BuddyCore.TotalCountsFreePages` | mm/mm.c:63-70 | the sum of 2^level over the listed blocks is the number of free pages |
| `Buddy.Allocator.constructor` | mm/page.c:95-110 | page and buddy initialisation establishes the whole invariant with nothing live |
| `Buddy.Allocator.InitChunks` | mm/mm.c:156-181 | the loop lists exactly the top-level chunks between the kernel image and the end of memory |
| `Buddy.ZoneInMemory` | mm/mm.c:160-180 | every page handed to the buddy system lies above the kernel image and inside memory |
| `Buddy.BootSkips` | mm/mm.c:167-180 | of the whole chunks above the kernel image and inside memory, exactly one that starts at the end of the image is not managed |
| `Buddy.BootStart` | mm/mm.c:171-172 | the first chunk is the rounded-up end of the image, plus one exactly when that end is a chunk boundary |
| `Buddy.Allocator.FirstLevel` | mm/mm.c:84-86 | the least level from the order up with a free block |
| `Buddy.Allocator.Split` | mm/mm.c:91-104 | one split keeps the invariant; neither error exit is taken |
| `Buddy.TakenAt` | mm/mm.c:84-104 | an allocation takes one block from the least level that has one and leaves one more on each level below it down to the order |
| `Buddy.GrantedWhen` | mm/mm.c:84-90 | an allocation succeeds exactly when some list from the order on has a block |
| `Buddy.Allocator.BuddyAlloc` | mm/mm.c:74-120 | succeeds if and only if a block of at least that order is free; the result is the start of the first block of the least such level, one new live block of exactly the order, `free` less by its size, all reference counts untouched |
| `Buddy.Allocator.AllocPages` | mm/mm.c:184-189 | succeeds exactly when the lengths of the lists allow it, and predicts them afterwards; the start of the first block of the least level that has one; reference count 1 on the new head and no other count changed |
| `Buddy.Allocator.GetPage` | mm/page.c:44-47 | adds one reference to a live head, keeping the invariant |
| `Buddy.Allocator.Merge` | mm/mm.c:133-145 | merges exactly when the sibling block is free |
| `Buddy.Allocator.BuddyFree` | mm/mm.c:123-153 | the block leaves the live set, `free` grows by its size, no two free siblings remain below the top |
| `Buddy.Allocator.FreePages` | mm/mm.c:209-218 | drops one reference; the block is returned exactly when it was the last; other counts stand |
| `RbLayout.RotatedLeftLaid` | lib/rbtree.c:26-48 | the pointer writes of the left rotation lay out the rotated tree, parent links included |
| `RbLayout.RotatedRightLaid` | lib/rbtree.c:50-75 | the mirror image |
| `RbTree.RbRoot.RotateLeft` | lib/rbtree.c:26-48 | in-place left rotation anywhere in a tree: nodes and order unchanged, links consistent |
| `RbTree.RbRoot.RotateRight` | lib/rbtree.c:50-75 | the mirror image |
| `RbRules.PendingDone` | lib/rbtree.c:78-138 | when the repair stops, one red-red edge pending becomes a red-black tree |
| `RbTree.RbRoot.InsertFixup` | lib/rbtree.c:78-138 | turns a tree whose only fault is a red node under red, or a red root, into a red-black tree with the same order |
| `RbTree.RbRoot.Insert` | lib/rbtree.c:140-164 | the in-order sequence gains the node at one position, behind all that compare less or equal when the comparator guides the search; red-black stays red-black; links stay consistent |
| `RbRules.SortedSearch` | lib/rbtree.c:140-164 | in a sorted tree any total preorder guides the search |
| `RbRules.InsertKeepsSorted` | lib/rbtree.c:140-164 | insertion there keeps the sequence sorted, equal keys in arrival order |
| `RbRules.RedSiblingLeft` | lib/rbtree.c:176-183 | red sibling: the rotation leaves the same deficit under a black sibling |
| `RbRules.BlackNephewsLeft` | lib/rbtree.c:185-189 | two black nephews: the deficit moves up one level |
| `RbRules.RedNephewLeft` | lib/rbtree.c:190-205 | a red nephew: recolouring and rotation remove the deficit |
| `RbRules.RedSiblingRight` | lib/rbtree.c:213-220 | the mirror image of RedSiblingLeft |
| `RbRules.BlackNephewsRight` | lib/rbtree.c:222-226 | the mirror image of BlackNephewsLeft |
| `RbRules.RedNephewRight` | lib/rbtree.c:227-242 | the mirror image of RedNephewLeft |
| `RbTree.RbRoot.EraseFixup` | lib/rbtree.c:166-247 | repairs any one-black deficit; with the stale parent it only blackens the child; order and links always kept |
| `RbRules.StaleColors` | lib/rbtree.c:289-293 | with the stale parent the rules hold afterwards if and only if the child is red |
| `RbTree.RbRoot.Splice` | lib/rbtree.c:316-330 | unlinking a node with at most one child |
| `RbTree.RbRoot.Succeed` | lib/rbtree.c:261-310 | the leftmost node on the right leaves its place and takes that of the erased node |
| `RbTree.RbRoot.Erase` | lib/rbtree.c:249-335 | removes exactly the given node from the in-order sequence and keeps links consistent whatever the colours; a red-black tree stays one if and only if the node does not have two children with the right one black and childless |
| `RbRules.LopsidedExample` | lib/rbtree.c:289-293 | three black nodes: erasing the root loses the black heights |
| `RbTree.RbRoot.Search` | lib/rbtree.c:337-351 | a result compares equal; null means no element does, for any comparator monotone along the order |
| `RbTree.RbRoot.First` | lib/rbtree.c:353-361 | the first element in order, null for the empty tree |
| `RbTree.RbRoot.Next` | lib/rbtree.c:363-381 | the element after the given one, at every place it has in the order, and null after the last |
| `RbRules.FollowsAlone` | lib/rbtree.c:363-381 | among distinct nodes that determines the result |
| `Cow.FaultRefines` | kernel/vm/vma.c:186-195 | mapping a fresh zeroed frame keeps the invariant and gives one page of zeros |
| `Cow.StoreRefines` | kernel/vm/vm.c:255-283 | a store through a writable PTE changes one byte of one page of one address space, since the frame has no other user |
| `Cow.CowFaultRefines` | kernel/vm/vm.c:255-283 | the COW handler makes the page writable and changes nothing that any process sees; it keeps the frame if it has no other user and else takes the fresh one |
| `Cow.DupRangeRefines` | kernel/vm/vma.c:156-184 | sharing a range copy-on-write is giving the child private copies of its mapped pages |
| `Cow.CloseRangeRefines` | kernel/vm/vma.c:134-154 | releasing a range unmaps exactly it and changes no other page of anyone |
| `Cow.RunRefines` | kernel/vm/vma.c:134-195 | over every run of faults, stores, forks and releases, each address space reads what it would with private copies, each count equals the PTEs mapping the frame, and a writable PTE maps a frame of count 1 |
| `Cow.NoLeak` | kernel/vm/vma.c:134-154 | in every run the frames in use are exactly the mapped ones |
| `Sv39.LeafWrite` | kernel/vm/vm.c:46-130 | writing a leaf entry changes the map at that page and nowhere else, in any address space |
| `Sv39.PxDigits` | include/riscv.h:400-404 | the indices at the three levels are the base-512 digits of the page number |
| `Sv39.Translates` | kernel/vm/vm.c:46-85 | for every page number with digits v2, v1, v0: entry v0 of the table under entry v1 of the table under entry v2 of the root holds what the map holds, and is the entry that the walk finds |
| `Sv39.AddTable` | kernel/vm/vm.c:53-82 | hanging a zeroed table page under an invalid entry changes no mapping |
| `Sv39.AddRoot` | kernel/vm/vm.c:398-408 | a zeroed root is an address space with nothing mapped |
| `Vm.Memory.Walk` | kernel/vm/vm.c:46-85 | the entry to which the digits of the page number lead from the root; without alloc nothing changes; with alloc the missing tables are added, and it fails if and only if the page is past MAXVA or they outnumber the free pages; no mapping changes |
| `Vm.Memory.MapPages` | kernel/vm/vm.c:92-130 | the map gains the range up to the first page that cannot be walked, all of it on success; a failure means MAXVA was reached or two free pages per page were not there |
| `Vm.MapRangeAt` | kernel/vm/vm.c:92-130 | mapping changes exactly its range, page i onto frame i |
| `Vm.Memory.GenFault` | kernel/vm/vma.c:186-195 | zero fill on the tables is the fault step; it fails if and only if the free pages are not enough for the frame and the missing tables |
| `Vm.Memory.CowPageFault` | kernel/vm/vm.c:255-283 | the handler on the tables is the COW step: it copies if and only if the frame is shared, then taking one free page, and fails if and only if it has to copy and none is free |
| `Vm.Memory.UserStore` | kernel/vm/vm.c:285-330 | a store with the fault it may cause is one write step; it fails if and only if that fault does |
| `Vm.Memory.NextSlot` | kernel/vm/vma.c:150-152 | the pointer stepped by one entry, or walked again at a table boundary, equals a fresh walk of the next page |
| `Vm.Memory.Dup` | kernel/vm/vma.c:156-184 | at every address start, start + PGSIZE, ... below end the child sees what the parent saw, and nothing else that any address space sees changes; the loop on the tables is the fork step; two free pages per page visited are enough |
| `Vm.Memory.Close` | kernel/vm/vma.c:134-154 | at every address start, start + PGSIZE, ... below end nothing is mapped afterwards, and nothing else that any address space sees changes; the loop on the tables is the release step |
| `Vm.Memory.NewSpace` | kernel/vm/vm.c:398-408 | a new address space with nothing mapped, unless no page is left |
| `Vm.VisitsCounted` | kernel/vm/vma.c:139-153 | the loop over a VMA visits PageCount consecutive pages |
| `Vm.VisitsAll` | kernel/vm/vma.c:139-153 | of a VMA that starts on a page boundary it visits exactly the pages that hold a byte of it |
| `Vm.Memory.NoPageLost` | kernel/vm/vma.c:134-195 | after every operation the free pages, the tables and the user frames are all the pages there are, each counted once |
| `Links.AddTailRing` | include/lib/list.h:74-77 | adding at the tail of a list adds there, in both directions |
| `Links.AddHeadRing` | include/lib/list.h:79-82 | adding at the head of a list adds there, in both directions |
| `Links.DelRing` | include/lib/list.h:63-66 | list_del takes the node off the list and leaves it pointing into it |
| `Links.DelInitRing` | include/lib/list.h:68-72 | list_del_init takes the node off the list and links it to itself |
| `Links.DelSelf` | include/lib/list.h:57-72 | both do nothing to any list for a node linked to itself |
| `Links.MoveRing` | include/lib/list.h:48-82 | list_del and list_add_head take a node from one list to the front of another |
| `Links.RingFrame` | include/lib/list.h:48-82 | a list none of whose nodes is touched stays as it is |
| `Bio.BioListMake` | kernel/dev/blk/bio.c:28-73 | for all 32-bit arguments the pieces cover the requested bytes exactly, in order, non-empty and inside one block each, if and only if the arithmetic does not wrap |
| `Bio.ManyPieces` | kernel/dev/blk/bio.c:46-66 | the list built from the last block down |
| `BlockCache.ReadPieceKeeps` | kernel/dev/blk/gendisk.c:77-100 | a read leaves every block's view and fills the buffer with it |
| `BlockCache.WritePieceKeeps` | kernel/dev/blk/gendisk.c:102-128 | a write patches the view of one block, read first unless wholly overwritten |
| `BlockCache.ReadPieceBytes` | kernel/dev/blk/gendisk.c:77-100 | reading a piece yields the flat bytes at its address |
| `BlockCache.WritePieceBytes` | kernel/dev/blk/gendisk.c:102-128 | writing a piece changes the flat bytes at its address and no others |
| `BlockCache.FlushKeeps` | kernel/dev/blk/flush.c:39-60 | writing back one buffer keeps the invariant and every view |
| `BlockCache.DrainSyncs` | kernel/dev/blk/flush.c:35-62 | draining the dirty list with no write in between makes the disk equal the cache view |
| `BlockCache.FlushInOneStep` | kernel/dev/blk/flush.c:39-60 | the pointer code of a write-back with nothing in between is the one step, on disk, buffers and list |
| `BlockCache.RelistTied` | kernel/dev/blk/buf.c:194-204 | the pointer code of buf_release moves the buffer to the front of the list, every other node keeping its place |
| `BlockCache.PopTied` | kernel/dev/blk/flush.c:40-59 | popping takes the first buffer, and the later list_del of its node does nothing |
| `BlockCache.WritesInTheGap` | kernel/dev/blk/flush.c:39-60 | for any writes before the buffer is pinned and any writes between unpinning it and locking the list again, cache and dirty list stay consistent if and only if none of them is to that block |
| `BlockCache.GapExample` | kernel/dev/blk/flush.c:53-59 | a write in the gap that changes nothing, then one write to each of two blocks, and one block is dirty, differs from disk and is on no list |
| `BlockCache.Disk.ReadBio` | kernel/dev/blk/buf.c:148-176 | buf_get, fill if new, copy, release: the flat bytes of the piece; buffers are kept by block number, which BufHash.Table.BufGet shows of the chains |
| `BlockCache.Disk.WriteBio` | kernel/dev/blk/buf.c:180-206 | the same for a write; the linked dirty list then has the block once, in front |
| `BlockCache.Disk.FlushBhash` | kernel/dev/blk/flush.c:35-62 | any number of flusher rounds changes no byte a reader sees |
| `BlockCache.Disk.ReadRequest` | kernel/dev/blk/gendisk.c:60-147 | for every schedule of the flusher between pieces, a read request returns the bytes of the flat device |
| `BlockCache.Disk.WriteRequest` | kernel/dev/blk/gendisk.c:60-147 | for every schedule, a write request puts its data at its address and changes nothing else |
| `BlockCache.Disk.DeviceRead` | kernel/dev/blk/gendisk.c:220-227 | splitting and executing together: a read returns the bytes of the flat device |
| `BlockCache.Disk.DeviceWrite` | kernel/dev/blk/gendisk.c:231-238 | splitting and executing together: a write puts its data there and changes nothing else |
| `BufHash.AddedKeeps` | kernel/dev/blk/buf.c:95-99 | linking a new buffer into its chain keeps every chain: it holds exactly the buffers whose block number falls into it |
| `BufHash.AddedEntry` | kernel/dev/blk/buf.c:121-146 | a new buffer for a block that had none keeps block numbers unique and is one new entry by block number |
| `BufHash.Table.Find` | include/lib/hash.h:53-64 | the walk along one chain finds the buffer of the block, if there is one in any chain |
| `BufHash.Table.BufGet` | kernel/dev/blk/buf.c:148-176 | the one buffer of the block; on the chains it does what buf_get does on buffers kept by block number, and no other buffer changes |
| `RwLock.StepKeeps` | kernel/locks/rwlock.c:49-156 | every section keeps exclusion, exact queues and attendance of sleepers |
| `RwLock.FieldsTell` | kernel/locks/rwlock.c:85-156 | the flag says whether a writer has the lock, r_cnt whether readers do, and the queues who waits |
| `RwLock.ReadPolicy` | kernel/locks/rwlock.c:85-112 | a reader sleeps if and only if a writer has the lock, or writers are first and one waits, and then queues last; otherwise it reads and the longest waiting reader is woken |
| `RwLock.ReadUnlockPolicy` | kernel/locks/rwlock.c:114-121 | the last reader grants the lock to the longest waiting writer, and nobody else is woken |
| `RwLock.WritePolicy` | kernel/locks/rwlock.c:123-133 | a writer sleeps if and only if anyone has the lock, and then queues last |
| `RwLock.WriteUnlockPolicy` | kernel/locks/rwlock.c:135-156 | the longest waiting thread of the side that comes first is woken, of the other side if the first has none, and nobody else |
| `RwLock.WritersFirst` | kernel/locks/rwlock.c:98-104 | with writers first, no step lets a reader in while a writer waits |
| `RwLock.MutualExclusion` | kernel/locks/rwlock.c:85-156 | in every reachable state a writer that is active or granted is the only one, with no reader beside it; the flag marks exactly that and r_cnt counts the readers |
| `RwLock.NoLostWakeup` | kernel/locks/rwlock.c:85-156 | in every reachable state with nobody holding, both queues are empty or a woken reader has yet to retry |
| `RwLock.NoDeadlock` | kernel/locks/rwlock.c:85-156 | in every reachable state, if every thread is idle or asleep then every thread is idle |
| `RwLockCode.PushShows` | kernel/locks/rwlock.c:9-14 | going to sleep appends the thread to its queue and to no other; the assertion that its node is on no list holds |
| `RwLockCode.PopShows` | kernel/locks/rwlock.c:16-29 | waking pops the longest waiting thread; the panic is not reached, as the length field tells whether the list is empty |
| `RwLockCode.Lock.ReadSection` | kernel/locks/rwlock.c:85-112 | read_lock from the retry label to sleeping or holding is the read step, on linked queues |
| `RwLockCode.Lock.ReadUnlockSection` | kernel/locks/rwlock.c:114-121 | read_unlock is its step, on linked queues |
| `RwLockCode.Lock.WriteSection` | kernel/locks/rwlock.c:123-133 | write_lock up to sleeping or holding is its step, on linked queues |
| `RwLockCode.Lock.WriteResumeSection` | kernel/locks/rwlock.c:123-133 | what a woken writer does after its sleep is its step |
| `RwLockCode.Lock.WriteUnlockSection` | kernel/locks/rwlock.c:135-156 | write_unlock is its step, waking by the priority of WriteUnlockPolicy, on linked queues |
| `Semaphore.WaitKeeps` | kernel/locks/semaphore.c:16-40 | waiting keeps: waiters are max(0, -value), grants add up, wakes follow sleeps, a mutex has at most one holder, and who locked it holds it or waits for it |
| `Semaphore.SignalKeeps` | kernel/locks/semaphore.c:42-65 | signalling keeps the same |
| `Semaphore.SignalHasWaiter` | kernel/locks/semaphore.c:48-62 | the panic branch is unreachable: a non-positive value means a waiter |
| `Semaphore.GrantsBounded` | kernel/locks/semaphore.c:9-65 | completed waits never exceed the initial value plus the signals |
| `Semaphore.WakesInOrder` | kernel/locks/semaphore.c:16-65 | the n-th wake is of the n-th sleeper |
| `Semaphore.MutexExclusive` | kernel/locks/mutex.c:20-35 | a mutex initialised to 1 and unlocked only by threads that locked it has at most one holder |
| `Semaphore.ClaimHolds` | kernel/locks/mutex.c:20-35 | a thread that called sem_wait on a mutex and not sem_signal since, and waits no longer, holds it |
| `Sched.PickIsOldest` | kernel/proc/sched.c:28-41 | a listed thread is RUNNABLE, so the oldest entry is picked |
| `Sched.StepKeeps` | kernel/proc/sched.c:28-166 | every step of any CPU keeps the invariant on threads, CPUs, lists, locks and semaphores |
| `Sched.OneCpu` | kernel/proc/sched.c:67-143 | no thread is executed by two CPUs, even while one is still switching away from it |
| `Sched.OneList` | kernel/proc/sched.c:43-65 | a thread is on at most one list, once; a listed thread is RUNNABLE and executed at most by the CPU leaving it |
| `Sched.NoneLost` | kernel/proc/sched.c:43-166 | a created thread is always on a CPU, on a list, or in the hands of its waker |
| `Sched.DispatchesInOrder` | kernel/proc/sched.c:106-143 | the n-th dispatch of a CPU is of the n-th thread put on its list |
| `Sched.AffinityKept` | kernel/proc/sched.c:43-65 | a pinned thread runs only on its CPU |
| `Sched.NoLockDeadlock` | kernel/proc/sched.c:43-166 | while some CPU is inside scheduler, yield or wakeup code, some such CPU has its next step enabled |
| `Sched.SemaphoreLockMoves` | kernel/locks/semaphore.c:42-65 | while a semaphore's spinlock is held, some CPU inside such code has its next step enabled |
| `Sched.SectionsEnd` | kernel/proc/sched.c:43-166 | every run of such steps is exactly as long as the work it does, so none goes on for ever |
| `Sched.SectionsDrain` | kernel/proc/sched.c:43-166 | from every state of the invariant the sections can be run to their ends, and then no lock of a thread, list or semaphore is held |
| `Sched.RoundRobin` | kernel/proc/sched.c:49-57 | n successive choices for threads that are not pinned visit each of the n CPUs exactly once |
| `Sched.OwnerStable` | kernel/locks/mutex.c:20-44 | the owner fields of a mutex name a thread after a step if and only if that step set them for it, or they named it and it did not clear them |
| `Sched.HoldExactly` | kernel/locks/mutex.c:20-44 | in every run mutex_is_hold is true of a thread exactly between its setting of the owner in mutex_lock and its clearing of it in mutex_unlock |
| `Sched.Guarded` | kernel/proc/sched.c:43-166 | in every step a run list changes only in the hands of the CPU holding its lock, a semaphore only under its spinlock, and a thread's state only when no other CPU holds its lock |
| `Sched.ClaimHeld` | kernel/locks/mutex.c:20-35 | a running thread holds a mutex if and only if it has locked and not unlocked it, whether it slept in sem_wait or not |
| `Sched.SafeRun` | kernel/proc/sched.c:28-166 | the safety properties above in every state reachable by any number of threads and CPUs |
| `ThreadLists.RunPush` | kernel/proc/sched.c:60-64 | listing a thread appends it to its run list and leaves every other list and node alone |
| `ThreadLists.RunPop` | kernel/proc/sched.c:118-124 | unlinking the oldest thread takes it off its run list only, its node linked to itself |
| `ThreadLists.WaitPush` | kernel/locks/semaphore.c:26-30 | queueing a thread appends it to its wait queue and leaves every other list and node alone |
| `ThreadLists.WaitPop` | kernel/locks/semaphore.c:47-54 | popping takes the longest waiting thread off its queue only, its node linked to itself |
| `Threads.PopRep` | kernel/locks/semaphore.c:42-65 | the queue that must be popped is not empty, its first node is the longest waiting thread, and the length field stays right |
| `Threads.Kernel.PickNextTask` | kernel/proc/sched.c:28-41 | the walk along the prev links finds the oldest RUNNABLE thread of the list |
| `Threads.Kernel.constructor` | kernel/proc/sched.c:145-154 | empty linked lists and the initial state of the step machine, with the invariant |
| `Threads.Kernel.RunningLoose` | kernel/proc/sched.c:118-128 | the sched node of a running thread is linked to itself, so it can be linked into any list |
| `Threads.Kernel.SchedulerPick` | kernel/proc/sched.c:110-113 | picking under the list lock is its step, and the thread returned is the one picked |
| `Threads.Kernel.SchedulerDispatch` | kernel/proc/sched.c:118-128 | locking, unlinking and switching to the picked thread, the oldest of the list, is its step, lists and cpu->thread included |
| `Threads.Kernel.SchedulerResume` | kernel/proc/sched.c:130-134 | the scheduler, switched back to, drops the lock carried across the switch |
| `Threads.Kernel.SchedReturn` | kernel/proc/sched.c:67-93 | a thread, switched to, drops the lock carried across the switch |
| `Threads.Kernel.MyProc` | kernel/proc/sched.c:67-70 | cpu->thread is the thread whose code the CPU runs |
| `Threads.Kernel.ChooseCpu` | kernel/proc/sched.c:46-57 | an existing CPU: that of a pinned thread, or the one after the last chosen, from the last back to CPU 0, which advances the rotation of RoundRobin by one |
| `Threads.Kernel.YieldStart` | kernel/proc/sched.c:96-104 | yield up to the choice of a CPU, that of ChooseCpu, is its step |
| `Threads.Kernel.LockChosenList` | kernel/proc/sched.c:58-60 | taking the lock of the chosen list, for oneself or for a woken thread, is its step |
| `Threads.Kernel.YieldFinish` | kernel/proc/sched.c:60-65 | listing oneself last on the chosen list and keeping one's lock is its step |
| `Threads.Kernel.SemWait` | kernel/locks/semaphore.c:16-40 | sem_wait up to its return or the switch is its step: one off the value, and asleep at the end of the queue if and only if the value was not positive |
| `Threads.Kernel.SemSignal` | kernel/locks/semaphore.c:42-65 | sem_signal up to its return or to wakeup_process is its step: one more on the value, and the first of the queue is taken off if anyone waits; the panic branch is not taken |
| `Threads.Kernel.WakeupMark` | kernel/proc/sched.c:156-166 | marking RUNNABLE and choosing a CPU, that of ChooseCpu, is its step |
| `Threads.Kernel.WakeupDeliver` | kernel/proc/sched.c:60-65 | listing the woken thread last on the chosen list and releasing all locks is its step |
| `Threads.Kernel.KthreadCreate` | kernel/proc/sched.c:168-198 | a new thread, its node on no list, goes into the hands of its creator, as a woken one does |
| `Threads.Kernel.MutexLocked` | kernel/locks/mutex.c:20-27 | the thread that sets the owner after sem_wait returned holds the mutex |
| `Threads.Kernel.MutexUnlocking` | kernel/locks/mutex.c:29-35 | the thread that clears the owner, having locked the mutex, still holds it |
| `Threads.Kernel.MutexIsHold` | kernel/locks/mutex.c:37-44 | true exactly when the owner fields name the thread (HoldExactly says when), and then the thread holds the mutex |
| `Pow2Math.CeilLogLeast` | lib/math.c:3-37 | CeilLog is the least exponent whose power covers n |
| `Pow2Math.Smear` | lib/math.c:8-13 | or-ing a word with itself shifted by w doubles its leading run of ones from w to 2w |
| `Pow2Math.NextPowerOf2` | lib/math.c:3-15 | the least power of two at or above n up to 2^63, and 0 above |
| `Pow2Math.MathOrder2` | lib/math.c:17-37 | the least order covering the size up to 2^31, and 0 above |
| `SlabCore.AllocationsApart` | mm/kmalloc.c:55-86 | no byte belongs to two live allocations, objects of any caches and page-sized blocks alike |
| `SlabCore.SlotPage` | mm/slab.c:44-77 | the page of any slot leads back to its own slab |
| `SlabCore.RouteMatches` | mm/kmalloc.c:89-103 | for every live allocation PG_KMALLOC_PAGE is set on its page if and only if it is page-sized |
| `SlabCore.StackBound` | mm/slab.c:124-130 | distinct slots never outnumber count_per_slab, so the free stack never overflows |
| `SlabCore.PopKeeps` | mm/slab.c:248-253 | popping, with the move to the full list, keeps the slab invariant |
| `SlabCore.PushKeeps` | mm/slab.c:261-297 | pushing, with the move of a full slab to the partial list, keeps the slab invariant |
| `SlabCore.PopEvolves` | mm/slab.c:113-121 | the popped address is the one new allocation, of the cache's object size; all others stand |
| `SlabCore.PushEvolves` | mm/slab.c:124-130 | exactly the pushed object goes |
| `SlabCore.NewKeeps` | mm/slab.c:44-77 | a new slab on two fresh blocks keeps the invariant |
| `SlabCore.NewEvolves` | mm/slab.c:44-77 | a new slab allocates nothing |
| `SlabLists.CpuTest` | mm/slab.c:276-284 | list_empty on a slab's node holds if and only if the slab serves a CPU |
| `SlabLists.PopLists` | mm/slab.c:248-253 | list_del and list_add_head on the slab's node, when it became full, leave the partial and full lists linked as the step says, and CPU slabs on none |
| `SlabLists.PushLists` | mm/slab.c:289-294 | the same for the move from the full to the partial list |
| `SlabLists.NewLists` | mm/slab.c:152-157 | the node of a new slab is linked to itself or in front of the partial list, every other list standing |
| `SlabLists.CacheLists` | mm/slab.c:171-174 | a new cache has two empty lists |
| `Slab.BuddyApart` | mm/mm.c:74-153 | the blocks under the slabs do not overlap, by the buddy invariant |
| `Slab.SlotAligned` | mm/slab.c:65-73 | in a block aligned by the buddy system every slot is at a multiple of the object size |
| `Slab.Heap.ObjectAligned` | mm/slab.c:65-73 | every live object is at a multiple of its size, as the buddy system aligns blocks |
| `Slab.RoomForSlab` | mm/slab.c:44-62 | a free block larger than the slab is enough for the slab and its header |
| `Slab.CalcSlabOrder` | mm/slab.c:96-110 | the least order that holds four objects |
| `Slab.CacheShape` | mm/slab.c:160-177 | the parameters are sound, and exist exactly for sizes 9 to 32768 |
| `Slab.ClassLeast` | mm/kmalloc.c:55-74 | the class of a size is the least of the classes 4 to 13 whose objects hold it |
| `Slab.Heap.SlabCreate` | mm/slab.c:44-77 | succeeds exactly when the buddy lists can serve the header page and then the block; exactly these two blocks are taken, the header first; all slots free on the new slab, which is the one new slab; on failure nothing stays allocated |
| `Slab.Heap.ObjPop` | mm/slab.c:113-121 | the panic on an empty stack is unreachable; one new object, the top of the slab's stack; no block or slab comes or goes; the slab moves to the front of the full list when it was listed and becomes full |
| `Slab.Heap.CacheAlloc` | mm/slab.c:209-258 | an object of this cache that was not allocated before, all others standing: from the CPU slab if it has room, else from the first partial slab, else from one new slab; no block or slab is added while there is room; fails exactly when there is none and the buddy lists cannot serve a new slab |
| `Slab.Heap.CacheFree` | mm/slab.c:261-297 | exactly this object goes, onto the stack of its slab; a full slab that serves no CPU moves to the front of the partial list, told by its linked node; the panic on a full stack is unreachable |
| `Slab.Heap.CacheCreate` | mm/slab.c:160-177 | a cache with one slab per CPU, nothing allocated; succeeds exactly for sizes 9 to 32768 whose slabs the buddy lists can serve |
| `Slab.Heap.KmallocInit` | mm/kmalloc.c:41-53 | the ten caches of 16 to 8192 bytes; succeeds exactly when the buddy lists can serve all their slabs |
| `Slab.Heap.Kmalloc` | mm/kmalloc.c:55-86 | for every legal size a block not allocated before, all others standing: up to 8192 bytes of the size of its class, with the failures and the new blocks of the cache alone; above, of the least sufficient order, taken from the buddy lists, failing exactly when they have no such block |
| `Slab.Heap.Kfree` | mm/kmalloc.c:89-103 | exactly this allocation goes, whichever way it was made; a page-sized block returns to the buddy system, an object leaves the buddy system alone; no live block is ever without a use |
| `Bitmap.Map.Find` | lib/bitmap.c:42-67 | the nested loops find the first zero bit from the remembered position on |
| `Bitmap.Map.Alloc` | lib/bitmap.c:36-69 | the least free index, or -1 if and only if none is left; below `size`; `unused` stays the number of free bits and the remembered position below them all |
| `Bitmap.Map.FreeBit` | lib/bitmap.c:73-94 | exactly the index becomes free, out of range and double frees changing nothing; the invariant is kept if and only if the bit is not a reserved one |
| `Bitmap.Map.IsFree` | lib/bitmap.c:96-106 | 1 for a zero bit, 0 for a one, -1 out of range; from the base on, 1 exactly for what can be allocated |
| `Bitmap.Map.Reset` | lib/bitmap.c:23-34 | mounting an existing map with a correct count establishes the invariant; exactly when the probe leaves bit `size` set |
| `Bitmap.LeavesBitExample` | lib/bitmap.c:23-28 | a map of one bit on which it does |
| `InodeMap.TableRoundTrip` | fs/easyfs/inode.c:70-83 | an indirect table written to disk is read back as it was |
| `InodeMap.PtrLayout` | fs/easyfs/inode.c:116-163 | twelve pointers in the inode, then 1024 little-endian words in the block that the thirteenth names |
| `InodeMap.BlocksUnshared` | fs/easyfs/inode.c:116-163 | no physical block serves two logical blocks or tables of any files, and none in use is free |
| `InodeMap.AssignKeeps` | fs/easyfs/inode.c:122-160 | giving a free block to an empty slot keeps the invariant and every mapped byte of every file |
| `InodeMap.PutAt` | fs/easyfs/inode.c:254-261 | writing into a mapped block changes those bytes of that file and no byte of any file else |
| `InodeMap.WriteBackKeeps` | fs/easyfs/inode.c:70-83 | writing the cached table back, and then dropping it, changes no file |
| `EasyFs.FileSystem.Mount` | fs/easyfs/super.c:29-39 | an image with zero free blocks, a correct count and unshared blocks mounts to a valid file system |
| `EasyFs.EmptyImage` | fs/easyfs/super.c:29-39 | zero blocks and one empty file are such an image, for every block map |
| `EasyFs.FileSystem.BmapAlloc` | fs/easyfs/super.c:206-214 | the least free block, block_free kept equal to the bitmap's count; panics if and only if none is free |
| `EasyFs.FileSystem.FindBlock` | fs/easyfs/inode.c:116-163 | without alloc: the block of a logical block, read from the place PtrLayout gives, or 0; no file changed |
| `EasyFs.FileSystem.MapBlock` | fs/easyfs/inode.c:116-163 | with alloc: the logical block is mapped, no other slot and no mapped byte of any file changes, and it panics if and only if the slots to fill outnumber the free blocks |
| `EasyFs.FileSystem.Read` | fs/easyfs/inode.c:220-243 | the bytes of the file from the offset, as many as asked for and present, never stopping short; no file changes |
| `EasyFs.FileSystem.Write` | fs/easyfs/inode.c:245-273 | the file becomes the old bytes overwritten at the offset and no other file changes; only blocks of the written range and their table are mapped, at one free block each; the exact conditions of the returns 0 and -1 and of the panic |
| `EasyFs.OverwriteAt` | fs/easyfs/inode.c:245-273 | overwriting changes exactly the bytes of the range and extends the file to its end at most |
| `EasyFs.FileSystem.Update` | fs/easyfs/inode.c:70-83 | the inode and its indirect block are written back: no file changes, and with the inode read again from the inode area every file is the same |

## Left out

- Boot code, CSR access, traps, context-switch assembly, TLB fences, interrupt controller, console and the virtio driver: hardware effects. A context switch is a transfer of control, a disk transfer reads or writes one whole block.
- Interrupts: a CPU is not preempted between releasing and retaking a thread's lock in add_runnable_task, which holds where it is called with interrupts off.
- Buddy.Allocator.AllocPages: the reference count changes outside `Buddy.lock` in the code; allocation, reference and release are single steps here.
- Cow.RunRefines: a fault, fork or release of a VMA is one step, VMAs do not share pages, and a page is used by address spaces only.
- Sv39.LeafWrite: PTEs are a valid bit, a frame and permissions rather than packed 64-bit words; the U and PF bits are not modelled.
- Sv39.AddRoot: the kernel entries that alloc_user_pgd copies into every root, with the tables below them that all roots share, are not modelled.
- Vm.Memory.NewSpace: the same kernel entries are not modelled.
- Vm.Memory.MapPages: the misalignment and remap panics are preconditions; that the ERR return keeps `mem_map.lock` is not modelled.
- Vm.Memory.Dup: that two free pages per page visited are enough is stated, the exact number of tables the child lacks is not; what a failing fork leaves is not described, as the code then dereferences a null entry.
- Vm.Memory.CowPageFault: the code does not check that its allocation succeeded; that case is the result false.
- BlockCache.Disk.ReadBio: buffers are kept by block number rather than on the chains of BufHash, whose buf_get is shown to do the same.
- BlockCache.Disk.ReadRequest: the flusher runs between pieces, not inside one; LRU order, which nothing reads, and reference counts of buffers are not modelled.
- RwLock.NoLostWakeup: the priority is fixed at init; changing it while threads wait is not modelled.
- RwLockCode.PushShows: a woken thread's node is linked to itself at once; in the code wakeup_process links it into a run list, and only the dispatch (kernel/proc/sched.c:119) frees it. That a running thread's node is free again is `Threads.Kernel.RunningLoose`.
- Sched.StepKeeps: the only wakers are sem_signal and thread creation, each thread is woken once per sleep; a thread in the hands of a waker is tied to the waker's CPU, although kthread_create calls wakeup_process with no spinlock held and could be preempted and moved there; timers, signals, exit and the load_lock's own section boundaries are not modelled. The boot context is a thread already running on CPU 0.
- Slab.Heap.CacheAlloc: sequential runs of a cache; the unlocked is_slab_full test and concurrent use of a CPU slab are not modelled. A failing allocation is None where the code dereferences a null slab.
- Slab.Heap.Kmalloc: zeroing of the block is not modelled; sizes outside 1 to MAX_KMALLOC_PAGE panic and are excluded. The code flags the page of a null address before it panics; here nothing changes.
- kmem_cache_destory and slab_destory: would only add easy members.
- Bitmap.Map.Alloc: a 64-bit word is its sequence of bits; sizes near 2^31, where `size + 63` overflows, are not modelled.
- EasyFs.FileSystem.Write: files change only by efs_i_write; unlink and truncate, which keep pointers to freed blocks, directories, the dentry cache, inode allocation and locking are not modelled.
- EasyFs.FileSystem.Update: the inode area holds size and block pointers of each inode; its layout in blocks and the other fields are not modelled.
- EasyFs.FileSystem.Mount: the image's block bitmap, free count, zero free blocks and unshared blocks are preconditions.
- mkfs, ELF loading, module relocation, kprobes, signals, system call stubs, stack growth, mmap address choice and file-backed page-in: plumbing, or dependent on layout and scheduling.
- vma_is_x tests the READ bit of a VMA (kernel/vm/vma.c:37-40); the permission checks of the fault handler are outside this model.
