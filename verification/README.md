# Verified models of veloq

This project models the parts of the veloq workspace where correctness is subtle and proves properties of
them for every input, every reachable state or every interleaving. `dafny verify dfyconfig.toml` checks it.

- **Buddy allocator and slot pool** (`Bits`, `Words`, `Dyadic`, `BuddySpec`, `FreeListMemory`, `BuddyAllocation`,
  `Superblock`, `SuperblockEpochs`, `ChunkSpec`, `ChunkEffects`, `ShardProbe`, `ShardLayout`). Blocks are dyadic
  intervals. `BuddySpec` gives the operations on values and the invariant; `BuddyAllocator` updates list ends,
  order word, allocation bits and slot memory in place and is proved against it. The free lists are threaded
  through the slots themselves, and clients may overwrite everything in a block they own: the links, the linked
  flag and the order a free block keeps there. `ChunkSpec` is the chunk as a state machine over shards, superblocks
  and clients, `ChunkEffects` what each of its steps does for the clients; `Superblock` also follows `free_one` and
  `set_inactive` one memory access at a time within one epoch, and `SuperblockEpochs` across reopenings.
- **Timing wheel** (`WheelSpec`, `TimingWheel`). The class keeps the source's slot heads, linked entries and
  clock; what it stands for is a map from key to deadline and item, and a log of what was inserted, delivered
  and cancelled.
- **Lock-free protocols** as transition systems, with any number of threads and one atomic access per step: the
  waker cell (`Mwsr`), the task header and its polling loop (`TaskHeader`, concrete runs in `TaskHeaderRuns`), the
  wake token (`WakeToken`), the reader-writer lock word (`RwLock`) and the oneshot channel (`Oneshot`). Each has an
  inductive invariant, a lemma that every step keeps it, and theorems about every run from the initial state.
  `MwsrCalls`, `TaskHeaderCalls`, `WakeTokenCalls`, `RwLockCalls` and `OneshotCalls` say what the calls come to:
  where they end whatever the others do, and what exactly they do when nobody interferes.
- **Intrusive list** (`IntrusiveList`): pointer surgery refining a sequence.
- **Local SPSC ring** (`Spsc`): wrapping 64-bit counters refining a FIFO, and what it means to be parked.

## What turned out not to hold

Each of these is stated with a counterexample and the exact condition under which the property does hold.

- A superblock can be handed back twice, or while one of its slots is in use, when `free_one` or
  `set_inactive` is caught between its two accesses (`Superblock.TwoReturnsHappen`,
  `Superblock.ReturnWhileInUseHappens`). It is handed back exactly once if and only if neither is split
  (`Superblock.ReturnedOnceIff`). It can be handed back while a slot of the same epoch is in use if and only if,
  when the owner lets go, a `free_one` that filled the mask has yet to read the flag and the mask is no longer full
  (`Superblock.ReturnWhileInUseIff`). A second answer can also reach into the next epoch. Across epochs, as far
  as the other owners are careful, letting go can never lead to a wrong return if and only if every slot is free and
  no `free_one` is between its accesses (`SuperblockEpochs.LettingGoIsSafeIff`). It is never leaked (`Superblock.NeverLeaked`).
- With two or more shards the superblock numbering agrees with the shards if and only if shard sizes are
  multiples of 64 (`ChunkSpec.SuperblockIsItsBlockIff`); the layout code does not make them so
  (`ChunkSpec.LayoutMayMisalign`). Otherwise a superblock hands out slots of another live block
  (`ShardLayout.MisalignedShardsCollide`): this is ruled out if and only if there is one shard, or shards are
  smaller than a superblock or multiples of 64, or there are two shards of 65 slots (`ShardLayout.ExclusiveIff`).
- The wheel delivers late if an L1 tick is longer than the L0 capacity, which the configuration allows
  (`TimingWheel.LongL1TicksDeliverLate`, `WheelSpec.CascadeAheadIff`).
- The scope may be told that a task is done while somebody else still has the task in hand. Once the count is zero
  this is ruled out if and only if the queued bit is clear and one worker at most is not through with the task
  (`TaskHeader.ToldWhileHeldIff`). The bit can be set then because `try_mark_queued` sets it and counts the
  reference in two accesses (`TaskHeaderRuns.CountingApartCallsTwice`). A second worker can be there even if these
  were one access, because it gives up the queue's reference before it looks at the header
  (`TaskHeaderRuns.ToldBesideAnEnteringWorker`), or the task's own before it leaves the poll state
  (`TaskHeaderRuns.ToldBesideThePoller`).
- `acknowledge_completion` is called a second time if and only if a mark is counted after the count was zero
  (`TaskHeader.CalledOnceIff`). The acknowledged bit stops the second call, by a failing debug assertion in debug
  builds, so the scope is told at most once, and once when nothing is left to run (`TaskHeader.ScopeIsToldOnce`).
- Growing the unbounded SPSC ring keeps its contents if and only if the head is 0, because the length is read
  after the head was reset (`Spsc.Channel.Grow`, `Spsc.GrowingMiscounts`).

## Model

| member | source | states |
|---|---|---|
| Dyadic.AlignedIsMultiple | crates/veloq-buf/src/heap/buddy.rs:118-145 | a start has `order` zero low bits exactly if it is a multiple of the block size |
| Dyadic.NestedOrDisjoint | crates/veloq-buf/src/heap/buddy.rs:260-270 | two aligned blocks are nested or disjoint, the fact the design note rests on |
| Dyadic.BuddyIsXor | crates/veloq-buf/src/heap/buddy.rs:118-121 | the exclusive or with the block size is the other half of the parent block |
| Dyadic.Halves | crates/veloq-buf/src/heap/buddy.rs:255-304 | an aligned block and its buddy are disjoint and together make the parent block |
| Dyadic.SplitTiling | crates/veloq-buf/src/heap/buddy.rs:214-222 | replacing a block of a tiling by its two halves gives a tiling |
| Dyadic.MergeTiling | crates/veloq-buf/src/heap/buddy.rs:288-298 | replacing two buddies of a tiling by their parent gives a tiling |
| Dyadic.BuddySlotHeadsATile | crates/veloq-buf/src/heap/buddy.rs:257-286 | in a tiling the first slot of a block's buddy is always the first slot of a tile, and that tile is no larger than the block |
| BuddySpec.FittingOrder | crates/veloq-buf/src/heap/buddy.rs:133-134 | the order chosen is the largest that fits, capped at the largest order |
| BuddySpec.Release | crates/veloq-buf/src/heap/buddy.rs:147-162 | putting a held block on its free list keeps the invariant, provided its buddy is not free |
| BuddySpec.Acquire | crates/veloq-buf/src/heap/buddy.rs:165-177 | taking a free block off its list keeps the invariant with that block held |
| BuddySpec.SplitKeeps | crates/veloq-buf/src/heap/buddy.rs:210-222 | the split loop keeps the invariant and leaves a held block of the wanted order |
| BuddySpec.AllocKeeps | crates/veloq-buf/src/heap/buddy.rs:180-229 | allocation keeps the invariant; the block returned is new, and refusal changes nothing (which block it is: `AllocIsBestFit`) |
| BuddySpec.BuddyByteIsAFreeHead | crates/veloq-buf/src/heap/buddy.rs:257-286 | whenever the merge loop reads an order byte, that slot heads a free block and the byte is its order |
| BuddySpec.MergeOnce | crates/veloq-buf/src/heap/buddy.rs:288-301 | one turn of the merge loop: with the free buddy off its list the parent block is held |
| BuddySpec.NoFreeHeadInside | crates/veloq-buf/src/heap/buddy.rs:260-270 | no free block starts inside a block that is held or live |
| BuddySpec.MergeKeeps | crates/veloq-buf/src/heap/buddy.rs:254-304 | the merge loop keeps the invariant and stops only at a block whose buddy is not free |
| BuddySpec.DeallocKeeps | crates/veloq-buf/src/heap/buddy.rs:236-307 | freeing an owned block succeeds, keeps the invariant and removes exactly that block from the live ones |
| BuddySpec.ClientWriteKeeps | crates/veloq-buf/src/heap/buddy.rs:272-286 | a client write inside an owned block cannot affect the invariant, so never merging |
| BuddySpec.FreeRunInOneBlock | crates/veloq-buf/src/heap/buddy.rs:180-193 | an aligned run of free slots lies inside one free block |
| BuddySpec.FreeBlocksAreMaximalRuns | crates/veloq-buf/src/heap/buddy.rs:254-304 | a block is on a free list exactly if it is a free run and its parent is not |
| BuddySpec.FreeSetIsDetermined | crates/veloq-buf/src/heap/buddy.rs:214-222 | the set of free blocks is a function of the live blocks alone |
| BuddySpec.AllocIsComplete | crates/veloq-buf/src/heap/buddy.rs:180-193 | allocation refuses exactly when the order is too large or no aligned run of that size is free |
| BuddySpec.AllocIsBestFit | crates/veloq-buf/src/heap/buddy.rs:185-208 | the block returned is the front of the list of a smallest free block that is large enough |
| BuddySpec.FreedBlockComesBack | crates/veloq-buf/src/heap/buddy.rs:147-208 | a block freed whose buddy is not free is what the next allocation of its order gets |
| BuddySpec.PlaceNext | crates/veloq-buf/src/heap/buddy.rs:128-143 | each turn of the initial loop keeps the start aligned and the placed blocks tiling and coalesced |
| BuddySpec.FreshArenaExists | crates/veloq-buf/src/heap/buddy.rs:124-144 | the decomposition succeeds for an arena of any size |
| BuddySpec.RunKeeps | crates/veloq-buf/src/heap/buddy.rs:124-307 | every legal sequence of allocations, frees and client writes keeps the invariant |
| BuddySpec.EveryRunIsSafe | crates/veloq-buf/src/heap/buddy.rs:124-307 | after any run free and live blocks tile the arena, the order word matches the lists, and no two buddies below the largest order are both free |
| BuddySpec.DrainingRestoresTheArena | crates/veloq-buf/src/heap/buddy.rs:236-307 | freeing everything in any order restores the initial decomposition |
| FreeListMemory.WriteOutside | crates/veloq-buf/src/heap/buddy.rs:13-19 | anything written to a slot that is in no list leaves the lists spelled out in memory as they are |
| FreeListMemory.PushThreads | crates/utils/veloq-intrusive-linklist/src/generic.rs:120-144 | pushing an unlisted slot threads it in front of its list and keeps every other list |
| FreeListMemory.UnlinkThreads | crates/utils/veloq-intrusive-linklist/src/generic.rs:361-389 | unlinking a listed slot removes exactly it and keeps every other list |
| FreeListMemory.PushFront | crates/utils/veloq-intrusive-linklist/src/generic.rs:120-144 | writes the node and the old head's back link and nothing else; refuses exactly a slot whose flag says linked |
| FreeListMemory.Unlink | crates/utils/veloq-intrusive-linklist/src/generic.rs:361-389 | writes the two neighbours' links past the node, clears the node, and nothing else |
| FreeListMemory.PopFront | crates/utils/veloq-intrusive-linklist/src/generic.rs:148-168 | does to the head what unlinking does |
| BuddyAllocation.BuddyAllocator.constructor | crates/veloq-buf/src/heap/buddy.rs:78-96 | whatever the memory holds at first, a fresh allocator satisfies the invariant with nothing allocated |
| BuddyAllocation.BuddyAllocator.InitFreeBlocks | crates/veloq-buf/src/heap/buddy.rs:124-144 | the initial loop establishes the invariant |
| BuddyAllocation.BuddyAllocator.AddToFreeList | crates/veloq-buf/src/heap/buddy.rs:147-162 | for a slot in no list, whatever it holds, the push is never refused, the links in memory spell out the new lists, and the state is `AddFree` of the old |
| BuddyAllocation.BuddyAllocator.RemoveFromFreeList | crates/veloq-buf/src/heap/buddy.rs:165-177 | for a listed slot, removal through its own links gives `RemoveFree` of the old state |
| BuddyAllocation.BuddyAllocator.TakeFirst | crates/veloq-buf/src/heap/buddy.rs:196-208 | popping the head gives `RemoveFree` of the old state |
| BuddyAllocation.BuddyAllocator.SplitDown | crates/veloq-buf/src/heap/buddy.rs:210-222 | the in-place split loop computes `Split` |
| BuddyAllocation.BuddyAllocator.MergeUp | crates/veloq-buf/src/heap/buddy.rs:254-304 | the in-place merge loop computes `Merge` |
| BuddyAllocation.BuddyAllocator.Allocate | crates/veloq-buf/src/heap/buddy.rs:180-229 | keeps the invariant, refuses exactly when no aligned free run exists, else cuts the block off the front of a best fit and records it as live |
| BuddyAllocation.BuddyAllocator.Deallocate | crates/veloq-buf/src/heap/buddy.rs:236-307 | out of range and double frees are reported and change nothing; a matching free succeeds and keeps the invariant |
| BuddyAllocation.BuddyAllocator.ClientWrite | crates/veloq-buf/src/heap/buddy.rs:13-19 | any links, flag and order written to owned memory keep the invariant, the threaded lists and the free blocks |
| Superblock.SuperblockState.Init | crates/veloq-buf/src/heap/units.rs:336-339 | whatever the last epoch left, no slot is in use |
| Superblock.SuperblockState.AllocOne | crates/veloq-buf/src/heap/units.rs:342-362 | hands out a slot nobody uses, the lowest, and refuses exactly when all 64 are in use; the new words are those of the chunk's step |
| Superblock.SuperblockState.OpenAndTake | crates/veloq-buf/src/heap/pool.rs:212-222 | a fresh superblock always has a slot to give: the expectation never fails |
| Superblock.SuperblockState.FreeOne | crates/veloq-buf/src/heap/units.rs:365-382 | takes one slot out of use and tells the caller to return the superblock exactly if none is in use and the owner is gone; the chunk's step computes the same |
| Superblock.SuperblockState.SetInactive | crates/veloq-buf/src/heap/units.rs:385-392 | the slots in use stay in use, and the owner is told to return the superblock exactly if there are none; the chunk's step computes the same |
| Superblock.AccessKeeps | crates/veloq-buf/src/heap/units.rs:336-392 | every single access keeps the account of answers given and still to come |
| Superblock.ReturnsAreCounted | crates/veloq-buf/src/heap/units.rs:365-392 | over every interleaving of single accesses, the number of "return it" answers is one plus the number of calls split by the other side |
| Superblock.NeverLeaked | crates/veloq-buf/src/heap/units.rs:365-392 | at single-access granularity, once all slots are free and the owner retired somebody was told to return the superblock |
| Superblock.ReturnedOnceIff | crates/veloq-buf/src/heap/units.rs:365-392 | exactly one call was told so if and only if neither call was split |
| Superblock.TwoReturnsHappen | crates/veloq-buf/src/heap/units.rs:365-392 | an interleaving in which two calls are told to return it |
| Superblock.ReturnWhileInUseHappens | crates/veloq-buf/src/heap/units.rs:365-392 | an interleaving in which it is returned while a slot is in use |
| Superblock.ReturnWhileInUseIff | crates/veloq-buf/src/heap/units.rs:365-392 | from any reachable state, some continuation after the owner lets go returns the superblock while a slot of the same epoch is in use if and only if then a `free_one` is between its accesses and the mask is not full; before that none does |
| SuperblockEpochs.LettingGoIsSafeIff | crates/veloq-buf/src/heap/units.rs:336-392 | with reopening and unfinished calls and answers carried over: after an owner lets go, the other owners letting go carefully, no later return can hit a superblock that is at home, owned or in use if and only if it let go with every slot free and no `free_one` between its accesses |
| SuperblockEpochs.CarefulRunsReturnOnce | crates/veloq-buf/src/heap/units.rs:336-392 | over every run in which owners let go like that, across all epochs, no return is wrong and at most one is pending |
| ChunkSpec.ShardRoundTrip | crates/veloq-buf/src/heap/units.rs:221-235 | splitting a slot number into shard and local index undoes joining them |
| ChunkSpec.ShardRoundTripBack | crates/veloq-buf/src/heap/units.rs:221-235 | and joining undoes splitting |
| ChunkSpec.SuperblockIsItsBlockIff | crates/veloq-buf/src/heap/units.rs:238-250 | with two or more shards, every 64-aligned block of every shard is the superblock its number names if and only if shard sizes are multiples of 64 |
| ChunkSpec.ShardCount | crates/veloq-buf/src/heap/pool.rs:130-148 | the shard count is a power of two: as many as the parallelism asks for, 16 at least, or the largest number that leaves 64 slots per shard |
| ChunkSpec.LayoutMayMisalign | crates/veloq-buf/src/heap/pool.rs:130-151 | 1600 slots give 16 shards of 100, and shard 1 starts inside superblock 1 of shard 0 |
| ChunkSpec.AllocLargeKeeps | crates/veloq-buf/src/heap/pool.rs:237-245 | allocating a block from a shard keeps the chunk invariant (what the client gets: `ChunkEffects.AllocLargeEffect`) |
| ChunkSpec.OpenKeeps | crates/veloq-buf/src/heap/pool.rs:208-215 | opening a superblock keeps the chunk invariant |
| ChunkSpec.AllocOneKeeps | crates/veloq-buf/src/heap/pool.rs:217-222 | taking a slot of an open superblock keeps the invariant, and the slot was nobody's |
| ChunkSpec.FreeSmallKeeps | crates/veloq-buf/src/heap/pool.rs:316-336 | freeing a slot keeps the invariant |
| ChunkSpec.RetireKeeps | crates/veloq-buf/src/heap/units.rs:385-392 | retiring the owner keeps the invariant |
| ChunkSpec.ReturnKeeps | crates/veloq-buf/src/heap/pool.rs:339-364 | returning a superblock to its shard keeps the invariant |
| ChunkSpec.FreeLargeKeeps | crates/veloq-buf/src/heap/pool.rs:343-364 | freeing a block keeps the invariant |
| ChunkSpec.StepKeeps | crates/veloq-buf/src/heap/pool.rs:198-364 | every step of clients, owners and returning threads keeps the chunk invariant |
| ChunkSpec.FreshIsSafe | crates/veloq-buf/src/heap/pool.rs:157-184 | a chunk just built satisfies the invariant |
| ChunkSpec.FreshChunkExists | crates/veloq-buf/src/heap/pool.rs:157-184 | there is one for every number of shards of any multiple of 64 slots |
| ChunkSpec.LiveAllocationsAreDisjoint | crates/veloq-buf/src/heap/pool.rs:198-245 | no two allocations held at one time share a slot, small or large |
| ChunkSpec.ReturnsAreSound | crates/veloq-buf/src/heap/pool.rs:316-364 | a superblock on its way back has no live slot, is returned by one thread, and its shard accepts it |
| ChunkSpec.NoSuperblockIsStranded | crates/veloq-buf/src/heap/units.rs:365-392 | a superblock without owner and without live slots is on its way back |
| ChunkSpec.EveryRunIsExclusive | crates/veloq-buf/src/heap/pool.rs:198-364 | over every run from a fresh chunk live allocations are disjoint |
| ChunkSpec.EveryEpochReturnsOnce | crates/veloq-buf/src/heap/pool.rs:316-364 | over every run from a fresh chunk each superblock is returned once per epoch, by one thread, never with a live slot, and is on its way back as soon as it has neither owner nor live slots |
| ChunkEffects.ShardHandsOut | crates/veloq-buf/src/heap/pool.rs:237-245 | a shard refuses exactly if it has no free run of the order; else one free run of it becomes live and nothing else changes |
| ChunkEffects.AllocLargeEffect | crates/veloq-buf/src/heap/pool.rs:237-245 | the client comes to own a run of exactly the order asked for, of the shard asked, that was free; if there is none nothing changes for anyone |
| ChunkEffects.OpenEffect | crates/veloq-buf/src/heap/pool.rs:208-215 | 64 free slots of the shard become a superblock that was not held, with an owner and no slot in use; if there are none nothing changes |
| ChunkEffects.FullIsUnused | crates/veloq-buf/src/heap/units.rs:365-392 | the mask of a superblock in use is full exactly if no client has a slot of it |
| ChunkEffects.FreeSmallEffect | crates/veloq-buf/src/heap/pool.rs:316-336 | exactly that slot leaves the clients, and a thread is told to return the superblock exactly if no slot of it is in use and its owner is gone |
| ChunkEffects.RetireEffect | crates/veloq-buf/src/heap/units.rs:385-392 | no client loses anything, and the owner is told to return the superblock exactly if no slot of it is in use |
| ChunkEffects.ReturnEffect | crates/veloq-buf/src/heap/pool.rs:339-364 | the superblock's block, and no other, becomes free in its shard; no client loses anything |
| ChunkEffects.FreeLargeEffect | crates/veloq-buf/src/heap/pool.rs:343-364 | exactly that block leaves the client and becomes free in its shard |
| ChunkEffects.WriteEffect | crates/veloq-buf/src/heap/buddy.rs:13-19 | one byte changes and nobody's ownership |
| ChunkEffects.StepHasEffect | crates/veloq-buf/src/heap/pool.rs:198-364 | every step has its effect on clients, shards and superblocks, and no other |
| ChunkEffects.OwnedUntilFreed | crates/veloq-buf/src/heap/pool.rs:198-364 | over every run, what a client owns it owns at its size until it frees it |
| ChunkEffects.FreeUndoesAlloc | crates/veloq-buf/src/heap/pool.rs:237-364 | freeing a block takes back all that allocating it did |
| ShardProbe.ProbeIs | crates/veloq-buf/src/heap/pool.rs:263-279 | the masked, wrapping probe index is start plus turn times stride modulo the shard count |
| ShardProbe.ProbeVisitsEveryShardOnce | crates/veloq-buf/src/heap/pool.rs:263-312 | the odd-stride probe visits each of the power-of-two shards in exactly one turn |
| ShardProbe.Shards.constructor | crates/veloq-buf/src/heap/pool.rs:157-168 | builds separate fresh shards |
| ShardProbe.Shards.TryPass | crates/veloq-buf/src/heap/pool.rs:274-291 | allocates in the first shard in probe order whose lock is free and that can serve; if there is none changes nothing |
| ShardProbe.Shards.BlockingPass | crates/veloq-buf/src/heap/pool.rs:293-312 | refuses exactly when every shard must, else allocates in the first shard in probe order that can serve |
| ShardProbe.Shards.AllocGlobal | crates/veloq-buf/src/heap/pool.rs:248-313 | if nobody else allocates or frees meanwhile, a chunk refuses exactly when no shard has an aligned free run; otherwise the first shard with a free lock that can serve, or else the first that can, gains the block returned and nothing else changes |
| ShardProbe.RefusalGrows | crates/veloq-buf/src/heap/pool.rs:248-313 | a shard without an aligned free run has none after more was allocated in it |
| ShardProbe.RefusalDespiteAllocations | crates/veloq-buf/src/heap/pool.rs:293-312 | over any history in which nothing is freed, if the shard of each turn must refuse at its turn, in the end every shard must |
| ShardProbe.Shards.AllocGlobalAmid | crates/veloq-buf/src/heap/pool.rs:248-313 | while others allocate before every turn and none frees: a refusal means that every shard must refuse by then, a chunk that must refuse from the start does, and a block returned was free just before |
| ShardLayout.ExclusiveIff | crates/veloq-buf/src/heap/units.rs:221-250 | for every shard count and size, superblocks hand out no slot of another block that can be live if and only if there is one shard, or shards are smaller than 64 or multiples of 64, or there are two shards of 65 |
| ShardLayout.MisalignedShardsCollide | crates/veloq-buf/src/heap/pool.rs:208-222 | two shards of 100 slots, brought by allocations to a state where the superblock opened in the second hands out slots of a block live in the first |
| WheelSpec.TakeSlot | crates/utils/veloq-wheel/src/wheel.rs:236-251 | emptying a slot detaches exactly its list |
| WheelSpec.LinkFirst | crates/utils/veloq-wheel/src/wheel.rs:349-364 | relinking during traversal keeps every list acyclic, disjoint and complete |
| WheelSpec.RemoveFirst | crates/utils/veloq-wheel/src/wheel.rs:376-388 | so does removing the entry being visited |
| WheelSpec.PlacedOnTime | crates/utils/veloq-wheel/src/wheel.rs:334-344 | a placed entry lies in the next L0 turn, or is cascaded in the future if L1 ticks fit in L0 |
| WheelSpec.CascadeAheadIff | crates/utils/veloq-wheel/src/wheel.rs:334-344 | every placement has its cascade ahead of it if and only if the L1 ratio is at most the L0 capacity |
| WheelSpec.CutNextTick | crates/utils/veloq-wheel/src/wheel.rs:245-251 | emptying the slot of a tick removes exactly the L0 entries due at that tick |
| WheelSpec.CutAllSlots | crates/utils/veloq-wheel/src/wheel.rs:227-241 | emptying all slots for a long step removes exactly the L0 entries due within it |
| WheelSpec.TimedAfterStep | crates/utils/veloq-wheel/src/wheel.rs:206-261 | a jump to at most the next cascade point leaves every entry timed except those in the slot to be cascaded |
| WheelSpec.TimedAfterCascade | crates/utils/veloq-wheel/src/wheel.rs:394-430 | after the cascade every entry is timed again |
| WheelSpec.NothingDueIsLeft | crates/utils/veloq-wheel/src/wheel.rs:197-268 | if every entry left is timed, everything due was delivered |
| WheelSpec.SlotsAreTicks | crates/utils/veloq-wheel/src/wheel.rs:227-241 | at a multiple of the capacity, emptying slots in index order is emptying ticks in order |
| WheelSpec.CascadeInOrder | crates/utils/veloq-wheel/src/wheel.rs:206-267 | what a cascade delivers is due at that very tick, so it comes after all the jump delivered before |
| WheelSpec.SameKeysSameItems | crates/utils/veloq-wheel/src/wheel.rs:197-268 | two deliveries of the same keys deliver the same multiset of items |
| WheelSpec.DeliversDueTwice | crates/utils/veloq-wheel/src/wheel.rs:197-268 | delivering what is due by one tick and then by a later one delivers exactly what is due by the later one |
| WheelSpec.StagesDeliverDue | crates/utils/veloq-wheel/src/wheel.rs:197-268 | any number of advances together deliver exactly what is due by the tick of the last |
| WheelSpec.SplitAdvance | crates/utils/veloq-wheel/src/wheel.rs:197-268 | however an advance is split into any number of steps, the same multiset of items is delivered |
| TimingWheel.Wheel.constructor | crates/utils/veloq-wheel/src/wheel.rs:117-136 | an empty wheel at tick 0 |
| TimingWheel.Wheel.DetermineLocation | crates/utils/veloq-wheel/src/wheel.rs:334-344 | the masked level and slot are the remainders they stand for, and exist |
| TimingWheel.Wheel.Link | crates/utils/veloq-wheel/src/wheel.rs:349-364 | the first detached entry is at the head of its slot's list, the other lists unchanged |
| TimingWheel.Wheel.Insert | crates/utils/veloq-wheel/src/wheel.rs:151-171 | the deadline map gains the item at now plus the delay (at least one tick) under a new key |
| TimingWheel.Wheel.Cancel | crates/utils/veloq-wheel/src/wheel.rs:178-187 | returns the item if it is pending and removes exactly it from the map |
| TimingWheel.Wheel.DrainList | crates/utils/veloq-wheel/src/wheel.rs:371-389 | removes exactly the list's entries and delivers its uncancelled items in list order |
| TimingWheel.Wheel.ExpireAll | crates/utils/veloq-wheel/src/wheel.rs:227-241 | a step of a whole turn or more empties L0 of everything due, in order if it starts at a multiple of the capacity |
| TimingWheel.Wheel.ExpireTicks | crates/utils/veloq-wheel/src/wheel.rs:242-252 | a shorter step empties L0 of exactly what is due, in the order of the deadlines |
| TimingWheel.Wheel.CascadeList | crates/utils/veloq-wheel/src/wheel.rs:394-430 | cancelled entries dropped, due ones delivered, the others relinked where they now belong; the entry looked up is always there |
| TimingWheel.Wheel.AdvanceStep | crates/utils/veloq-wheel/src/wheel.rs:206-267 | one jump keeps lists and timing and delivers only what is due |
| TimingWheel.Wheel.Advance | crates/utils/veloq-wheel/src/wheel.rs:197-268 | delivers only due items, each once, and if L1 ticks fit in L0 all of them, in the order of their deadlines; the rest stays pending |
| TimingWheel.Wheel.AdvanceInSteps | crates/utils/veloq-wheel/src/wheel.rs:197-268 | any sequence of advances delivers only due items, each once, and if L1 ticks fit in L0 exactly what is due by the sum of the steps |
| TimingWheel.Wheel.DeliveredIffDue | crates/utils/veloq-wheel/src/wheel.rs:151-268 | over any history, an uncancelled key has been delivered, once, exactly if its deadline has come |
| TimingWheel.Wheel.DeliveredInOrder | crates/utils/veloq-wheel/src/wheel.rs:151-268 | over any history, if L1 ticks fit in L0, no key is delivered before one that was due earlier |
| TimingWheel.Wheel.EntriesLieAhead | crates/utils/veloq-wheel/src/wheel.rs:334-344 | L0 entries are due within one turn, in the slot of their deadline; L1 entries have their cascade ahead if L1 ticks fit in L0 |
| TimingWheel.Wheel.ListsPartitionTheEntries | crates/utils/veloq-wheel/src/wheel.rs:349-430 | every entry is in exactly one slot list, the one its own fields name |
| TimingWheel.LongL1TicksDeliverLate | crates/utils/veloq-wheel/src/config.rs:132-196 | for every ratio above the L0 capacity an item is still pending when its time has come |
| TimingWheel.AdvanceShort | crates/utils/veloq-wheel/src/wheel.rs:206-267 | an advance that ends before the first cascade point leaves an L1 item where it is, due or not |
| Mwsr.RegKeeps | crates/utils/veloq-waker/src/mwsr.rs:60-170 | every access of the registrar keeps the invariant |
| Mwsr.TakeKeeps | crates/utils/veloq-waker/src/mwsr.rs:184-221 | every access of a taker keeps the invariant |
| Mwsr.StepKeeps | crates/utils/veloq-waker/src/mwsr.rs:60-221 | every step of the registrar or of any taker keeps the invariant |
| Mwsr.RegisterLosesNothing | crates/utils/veloq-waker/src/mwsr.rs:60-170 | after a register call its waker is in the cell, or was taken or notified since the call began (when it is notified: `MwsrCalls.RegisterAlone`) |
| Mwsr.WakeIsNotLost | crates/utils/veloq-waker/src/mwsr.rs:175-221 | when a take returns, a registration at least as recent as any that had returned when it began was woken, handed out or is about to be woken |
| Mwsr.OwnershipIsConserved | crates/utils/veloq-waker/src/mwsr.rs:93-164 | no clone is consumed twice, and each is consumed with the vtable and data of one registration |
| Mwsr.TakersExclude | crates/utils/veloq-waker/src/mwsr.rs:197-212 | between winning the cell and releasing it a taker is alone with it |
| Mwsr.EmptyCellHoldsNoPointer | crates/utils/veloq-waker/src/mwsr.rs:147-148 | an empty cell keeps no data pointer, except in the middle of a change |
| Mwsr.FailedPublishFindsWaking | crates/utils/veloq-waker/src/mwsr.rs:133-147 | a failed publication always finds the WAKING tag |
| Mwsr.EveryCloneIsConsumedOnce | crates/utils/veloq-waker/src/mwsr.rs:224-236 | once the cell is dropped every clone ever made was dropped, woken or handed out exactly once |
| MwsrCalls.RegisterAlone | crates/utils/veloq-waker/src/mwsr.rs:60-170 | from any reachable state, a call nobody interferes with ends with its waker stored and cached, the other waker found there dropped, and nobody woken; only if a take is under way it wakes its own waker and leaves the cell alone |
| MwsrCalls.RegEndIsUnique | crates/utils/veloq-waker/src/mwsr.rs:60-170 | such a call has one end |
| MwsrCalls.NoWakeWithoutATake | crates/utils/veloq-waker/src/mwsr.rs:60-170 | over any run in which no taker reaches into the cell, no waker is woken and no call answered |
| MwsrCalls.TakeAlone | crates/utils/veloq-waker/src/mwsr.rs:184-221 | a take nobody interferes with hands out the stored waker and leaves the cell empty; with none stored it changes nothing, except to leave the wake to a registrar that has the cell locked |
| MwsrCalls.TakeReturnsTheRegistered | crates/utils/veloq-waker/src/mwsr.rs:60-221 | register, then take: the very waker comes out |
| TaskHeader.StepKeeps | crates/veloq-runtime/src/task/header.rs:259-433 | every access of any waker or worker, the acknowledged test included, keeps the invariant, whether marking and counting are one access or two |
| TaskHeader.PollsExclude | crates/veloq-runtime/src/task.rs:229-277 | at most one worker is inside the poll, and none is in the future once the task is complete or its result set |
| TaskHeader.ResultIsSetOnce | crates/veloq-runtime/src/task.rs:186-189 | in every reachable state the result was set at most once, and exactly once if the task is complete |
| TaskHeader.NoneEntersAfterCompletion | crates/veloq-runtime/src/task/header.rs:292-325 | no worker enters the poll of a complete task |
| TaskHeader.OwedWakeIsCarried | crates/veloq-runtime/src/task/header.rs:259-355 | in every reachable state a wake not yet followed by a poll or completion is carried by the queued bit, the woken bit of a running poll, a worker about to enter, or the poller at its loop head or finishing |
| TaskHeader.NoWakeIsLost | crates/veloq-runtime/src/runtime/shared.rs:323-358 | when nothing is left to run, every wake was followed by a later poll or by completion |
| TaskHeader.ScopeIsToldOnce | crates/veloq-runtime/src/task/header.rs:422-433 | in every run, however accesses are grouped, the scope is told at most once and only after completion, and has been told once nothing is left to run |
| TaskHeader.AcknowledgedOnce | crates/veloq-runtime/src/task.rs:214-227 | with marking and counting one access: the count is exact, one call acknowledges, after completion and when no counted reference is left |
| TaskHeader.CalledOnceIff | crates/veloq-runtime/src/task/header.rs:259-288 | in general, `acknowledge_completion` is called once if and only if no mark was counted after the count reached zero, else twice |
| TaskHeader.ToldWhileHeldIff | crates/veloq-runtime/src/task/header.rs:259-325 | once the count is zero, some continuation tells the scope while a waker, the queue or another worker still has the task if and only if the queued bit is set or two workers are not through with it; the bit is set exactly if a waker has marked and not counted |
| TaskHeaderRuns.CountingApartCallsTwice | crates/veloq-runtime/src/task/header.rs:265-277 | a run of the two-access form that tells the scope while a waker is between mark and count, and then calls a second time |
| TaskHeaderRuns.ToldBesideAnEnteringWorker | crates/veloq-runtime/src/task/header.rs:280-325 | with marking and counting one access, a run to a state from which the scope can be told while a worker that popped the task is about to load the header |
| TaskHeaderRuns.ToldBesideThePoller | crates/veloq-runtime/src/task.rs:214-227 | likewise a run in which the worker that popped the task tells the scope before the poller has left the poll state |
| TaskHeaderCalls.CompletionHasACause | crates/veloq-runtime/src/task.rs:249-276 | over every run, a task completes or has a result only if its future was found done or a cancellation was seen |
| TaskHeaderCalls.CancelledIsNotPolled | crates/veloq-runtime/src/task.rs:249-253 | over every run from a cancellation with nobody in the future, nobody ever polls it |
| TaskHeaderCalls.WakeAlone | crates/veloq-runtime/src/task/header.rs:259-277 | a wake on its own puts the task in the queue, marked and counted, exactly if it is neither complete nor queued, in five accesses at most |
| TaskHeaderCalls.PollAlone | crates/veloq-runtime/src/task/header.rs:280-325 | a worker on its own that takes out an open task nobody polls comes to its future, the wake paid for |
| TaskHeaderCalls.WakeLeadsToPoll | crates/veloq-runtime/src/runtime/shared.rs:323-358 | from any reachable state with the task open and at rest, one wake and one free worker bring the worker into the future |
| TaskHeaderCalls.PendingPollAlone | crates/veloq-runtime/src/task.rs:261-270 | a poll that finds the future pending leaves the task as it was before the wake: not complete, not queued, not polled |
| TaskHeaderCalls.ReadyPollAlone | crates/veloq-runtime/src/task.rs:255-260 | a poll that finds the future done sets the result, completes the task, gives up its reference and tells the scope if that was the last |
| TaskHeaderCalls.CancelledPollAlone | crates/veloq-runtime/src/task.rs:249-253 | a worker that takes out a cancelled task completes it without a look at the future |
| TaskHeaderCalls.CancelledDuringPoll | crates/veloq-runtime/src/task.rs:261-265 | a task cancelled during a poll is complete after it, pending or not |
| TaskHeaderCalls.WokenPollsAgain | crates/veloq-runtime/src/task/header.rs:329-349 | the poller polls again exactly if the woken bit is set, else it leaves the poll |
| TaskHeaderCalls.YieldAlone | crates/veloq-runtime/src/task/header.rs:298-311 | a worker that takes out a task being polled sets the woken bit and does nothing else |
| WakeToken.StepKeeps | crates/veloq-runtime/src/task/header.rs:86-156 | every access of the owner or any waker keeps the invariant |
| WakeToken.WordIsExact | crates/veloq-runtime/src/task/header.rs:86-106 | the low bit is the alive bit and the rest counts the guards, without overflow |
| WakeToken.ReturnsWithoutGuards | crates/veloq-runtime/src/task/header.rs:122-143 | once deactivation returned no guard is live then or ever after |
| WakeToken.NoUseAfterFree | crates/veloq-runtime/src/task/header.rs:109-119 | a waker using the header uses one that has not been freed |
| WakeToken.SleeperIsReleased | crates/veloq-runtime/src/task/header.rs:146-155 | while the owner sleeps a guard is live or its last holder is about to wake the owner |
| WakeTokenCalls.WakeReachesTheHeader | crates/veloq-runtime/src/task/header.rs:86-119 | in every run, a wake that is over while the owner has not begun to deactivate has used the header |
| WakeTokenCalls.DeadTokenLetsNobodyIn | crates/veloq-runtime/src/task/header.rs:86-106 | in every run, once deactivation has begun no waker that was outside gets a guard |
| WakeTokenCalls.WakeAlone | crates/veloq-runtime/src/task/header.rs:109-119 | a wake on its own comes to the header and then leaves the token as it was |
| WakeTokenCalls.DeactivateAlone | crates/veloq-runtime/src/task/header.rs:122-143 | a deactivation that finds no guard returns on its own, the header unbound |
| WakeTokenCalls.SleepsAlone | crates/veloq-runtime/src/task/header.rs:122-143 | while a guard is left, an owner on its own spins and goes to sleep |
| WakeTokenCalls.LastGuardReleasesTheOwner | crates/veloq-runtime/src/task/header.rs:146-155 | the last guard given back wakes a sleeping owner, whose deactivation then returns |
| RwLock.ContendedIsApart | crates/veloq-sync/src/rwlock.rs:307-312 | setting or clearing the contended bit touches nothing else |
| RwLock.ReaderEnters | crates/veloq-sync/src/rwlock.rs:73-97 | counting a reader in on a word without writer and below the limit keeps the word exact |
| RwLock.WriterEnters | crates/veloq-sync/src/rwlock.rs:430-480 | a writer enters only where nobody is |
| RwLock.WriterLeaves | crates/veloq-sync/src/rwlock.rs:229-243 | both releases, the exchange and the blind store of 0, keep the word exact |
| RwLock.WriterTurnsReader | crates/veloq-sync/src/rwlock.rs:187-206 | making the writer the only reader keeps the word exact (that a downgrade does so: `RwLockCalls.DowngradeKeepsTheGuard`) |
| RwLock.StepKeeps | crates/veloq-sync/src/rwlock.rs:73-480 | every access of every thread keeps the invariant |
| RwLock.WordIsExact | crates/veloq-sync/src/rwlock.rs:73-480 | in every interleaving the writer bit is set exactly if one write guard exists, the reader field is the number of read guards, never both, no overflow |
| RwLock.ReadersSeeOneValue | crates/veloq-sync/src/rwlock.rs:133-227 | a reader sees one value as long as it holds its guard, also after a downgrade |
| RwLockCalls.CallsEnd | crates/veloq-sync/src/rwlock.rs:73-532 | whatever the others do, a call to read ends with a read guard or nothing, one to write with a write guard or nothing, a release with nothing, a downgrade with a read guard, and the word counts just that |
| RwLockCalls.DowngradeKeepsTheGuard | crates/veloq-sync/src/rwlock.rs:187-206 | in every run, a downgrading writer holds a guard at every moment, nobody changes the data, and it ends as a reader that the word counts |
| RwLockCalls.ReadersSeeTheLastWrite | crates/veloq-sync/src/rwlock.rs:133-227 | over every run each reader sees the value assigned last |
| RwLockCalls.TryReadAlone | crates/veloq-sync/src/rwlock.rs:73-97 | `try_read` on its own succeeds exactly if there is no writer, nobody waits and the field has room; else it changes nothing |
| RwLockCalls.TryWriteAlone | crates/veloq-sync/src/rwlock.rs:110-120 | `try_write` on its own succeeds exactly if the word is 0; else it changes nothing |
| RwLockCalls.ReadAlone | crates/veloq-sync/src/rwlock.rs:264-330 | a read future on its own gets its guard if there is no writer, and if it is woken also past those who wait |
| RwLockCalls.ReadWaits | crates/veloq-sync/src/rwlock.rs:270-388 | a read future that finds a writer or others waiting is left pending without a guard; if it joins the queue just then the contended bit is set, and nothing else changes |
| RwLockCalls.WriteAlone | crates/veloq-sync/src/rwlock.rs:419-482 | a write future on its own gets its guard if the word is 0, and if it is woken also if only the contended bit is set |
| RwLockCalls.WriteWaits | crates/veloq-sync/src/rwlock.rs:425-532 | a write future that is not woken and finds the word other than 0 is left pending without a guard; if it joins the queue just then the contended bit is set, and nothing else changes |
| RwLockCalls.DropWriteAlone | crates/veloq-sync/src/rwlock.rs:229-243 | dropping the write guard leaves the word 0 |
| RwLockCalls.DropReadAlone | crates/veloq-sync/src/rwlock.rs:148-162 | dropping a read guard takes one reader out of the word and nothing else |
| RwLockCalls.DowngradeAlone | crates/veloq-sync/src/rwlock.rs:187-206 | a downgrade on its own leaves one reader, no writer and the contended bit as it was |
| Oneshot.StepKeeps | crates/veloq-sync/src/oneshot.rs:191-382 | every access of either side keeps the invariant |
| Oneshot.CellAccessExcludes | crates/veloq-sync/src/oneshot.rs:191-324 | the two sides never reach for the cell at the same time |
| Oneshot.TakeBackFindsTheValue | crates/veloq-sync/src/oneshot.rs:196-200 | a refused send always finds its value to give back |
| Oneshot.ValueIsInOnePlace | crates/veloq-sync/src/oneshot.rs:191-382 | at no time has a value ended twice, or ended while still in the cell |
| Oneshot.ValueEndsOnce | crates/veloq-sync/src/oneshot.rs:116-127 | when both sides are through a sent value was returned, received or dropped exactly once and the cell is empty |
| OneshotCalls.ValueEndsWhere | crates/veloq-sync/src/oneshot.rs:191-382 | over every run, when both sides are through: a value not handed over was given back, which needs a closed channel; one handed over was dropped if the receiver was dropped and else received |
| OneshotCalls.DeliveredUnlessHungUp | crates/veloq-sync/src/oneshot.rs:191-382 | unless the receiver closes or is dropped, what is sent is received |
| OneshotCalls.ClosedNeverDelivers | crates/veloq-sync/src/oneshot.rs:248-254 | over every run, a channel closed before the value was handed over never delivers it; the sender gets it back |
| OneshotCalls.SendAlone | crates/veloq-sync/src/oneshot.rs:191-204 | `send` on an open channel hands the value over, on a closed one gives it back |
| OneshotCalls.DropSenderAlone | crates/veloq-sync/src/oneshot.rs:237-244 | dropping the sender completes an open channel without a value |
| OneshotCalls.ReceiveAlone | crates/veloq-sync/src/oneshot.rs:281-384 | a receive takes a value handed over, lets go of a finished channel, and otherwise changes nothing |
| OneshotCalls.DropReceiverAlone | crates/veloq-sync/src/oneshot.rs:311-325 | dropping the receiver closes the channel and drops a value handed over |
| OneshotCalls.ReceivesWhatWasSent | crates/veloq-sync/src/oneshot.rs:191-382 | send, then receive: the very value comes out |
| IntrusiveList.LinkedList.PushBack | crates/utils/veloq-intrusive-linklist/src/generic.rs:89-113 | appends an unlinked node, refuses a linked one without change |
| IntrusiveList.LinkedList.PushFront | crates/utils/veloq-intrusive-linklist/src/generic.rs:120-144 | prepends an unlinked node, refuses a linked one without change |
| IntrusiveList.LinkedList.PopFront | crates/utils/veloq-intrusive-linklist/src/generic.rs:148-168 | takes the first node off, unlinked; the rest is the tail of the sequence |
| IntrusiveList.LinkedList.Remove | crates/utils/veloq-intrusive-linklist/src/generic.rs:361-389 | removes a member by pointer, leaves it unlinked and moves to its successor |
| IntrusiveList.LinkedList.Drop | crates/utils/veloq-intrusive-linklist/src/generic.rs:217-233 | unlinks every node and empties the list |
| IntrusiveList.LinksAreInverse | crates/utils/veloq-intrusive-linklist/src/generic.rs:89-168 | members are linked, and prev and next are inverse on them |
| IntrusiveList.Perform | crates/utils/veloq-intrusive-linklist/src/generic.rs:89-233 | push at either end, pop, removal by pointer and drop: what leaves the list is unlinked and what comes in was not linked |
| IntrusiveList.Apply | crates/utils/veloq-intrusive-linklist/src/generic.rs:89-389 | among several lists, each of the five operations keeps all lists valid and apart and a node linked exactly if it is in one of them; a push is refused exactly if the node is in a list |
| IntrusiveList.MoveFront | crates/utils/veloq-intrusive-linklist/src/generic.rs:120-168 | a node can move from one list to another |
| IntrusiveList.Mix | crates/utils/veloq-intrusive-linklist/src/generic.rs:89-389 | after any mix of the operations a node is linked exactly if it is in the list |
| Words.NextPow2 | crates/veloq-local/src/spsc.rs:33-37 | the least power of two not below the size |
| Spsc.PushOk | crates/veloq-local/src/spsc.rs:77-92 | writing the masked slot of the tail and moving it on, with wrap-around, appends |
| Spsc.PopOk | crates/veloq-local/src/spsc.rs:94-105 | moving the head on, with wrap-around, drops the oldest item |
| Spsc.Channel.constructor | crates/veloq-local/src/spsc.rs:30-63 | an empty open ring of the rounded-up capacity |
| Spsc.Channel.Len | crates/veloq-local/src/spsc.rs:65-67 | the wrapping difference is the number of items |
| Spsc.Channel.Push | crates/veloq-local/src/spsc.rs:77-92 | appends unless the ring is full |
| Spsc.Channel.Pop | crates/veloq-local/src/spsc.rs:94-105 | takes the oldest item, none exactly if empty |
| Spsc.Channel.TrySend | crates/veloq-local/src/spsc.rs:265-285 | sends, reports full or closed with the item, wakes a parked consumer |
| Spsc.Channel.SendPoll | crates/veloq-local/src/spsc.rs:325-357 | as above, parking the producer exactly when full and open |
| Spsc.Channel.TryRecv | crates/veloq-local/src/spsc.rs:362-384 | receives the oldest item and wakes a parked producer, else empty or closed |
| Spsc.Channel.RecvPoll | crates/veloq-local/src/spsc.rs:404-422 | as above, parking the consumer exactly when empty and open |
| Spsc.Channel.DropSender | crates/veloq-local/src/spsc.rs:235-247 | closes and wakes a parked consumer |
| Spsc.Channel.DropReceiver | crates/veloq-local/src/spsc.rs:249-261 | closes and wakes a parked producer |
| Spsc.Channel.Drain | crates/veloq-local/src/spsc.rs:162-167 | the remaining items are dropped in order, each once |
| Spsc.Channel.ParkedMeansBlocked | crates/veloq-local/src/spsc.rs:325-422 | a parked consumer finds nothing and an open channel, a parked producer no room and an open channel |
| Spsc.Channel.Unwrapped | crates/veloq-local/src/spsc.rs:111-147 | the one or two copied runs put all items at the start of the new buffer |
| Spsc.Channel.Grow | crates/veloq-local/src/spsc.rs:107-159 | growing keeps the contents if and only if the head was 0 |
| Spsc.GrowingMiscounts | crates/veloq-local/src/spsc.rs:150-158 | a channel with its initial capacity that claims an item it does not have after growing |

## Left out

- Weak memory: atomics are sequentially consistent steps; fences and orderings are not modelled.
- Words: the free masks, order word and task state are sets or records of bits; the 64-bit RwLock word, the 32-bit wake token and the SPSC counters are numbers with explicit wrap-around.
- Slot memory: reduced to the fields that a free node lays over it; a pointer to a slot is its index.
- Chunk exclusivity: assumes shard sizes that are multiples of 64 and `free_one` and `set_inactive` as single steps; in single accesses only the superblock words are modelled (`Superblock`, `SuperblockEpochs`), not the chunk around them.
- Chunk operations: the chunk is a state machine on values, because its threads interleave; only the shard probe and the superblock words are also classes.
- Chunk locks: a shard operation under its lock is one step; the chunk list, growth by new chunks and the thread-local caches are not modelled.
- TimingWheel.Wheel.Advance: works in ticks; the truncation of durations to ticks and the wrap-around of the 64-bit clock are not modelled, and slot counts are powers of two.
- TimingWheel.Wheel.Insert: slot-map keys are numbers never handed out twice, where the slot map reuses slots with a new version.
- Wheel next timeout: it is not a lower bound on deadlines in the code, so nothing is claimed for it.
- Mwsr.RegisterLosesNothing: a clone has the vtable and data pointer of its original, and no caller passes the no-op vtable private to the crate.
- AtomicWaker: the variant with several registrars is not modelled.
- TaskHeader.AcknowledgedOnce: what the scope does when told, pinned and local tasks, queue-full handling and the memory of the task are not modelled; a queue is a count of references, and cancellation of the scope may turn out either way at every look.
- TaskHeader.NoWakeIsLost: no fairness is assumed, so it is not claimed that workers do run.
- WakeToken.SleeperIsReleased: a guard is taken only while fewer than 2^31 - 1 exist; the futex wait may also return spuriously.
- RwLock.WordIsExact: the waiter queue may behave in any way, so nothing is claimed about fairness or lost wake-ups of waiters, in this lock or in the mutex.
- Oneshot.ValueEndsOnce: the wakers beside the cell are left out; `Mwsr` is the model of each of them.
- Spsc.Channel.Grow: the source's unbounded push grows and goes on; only the growth itself is modelled.
- Drivers, reactors, slot tables, file and network wrappers, scheduler queues, builders, hashing, error types and macros: input and output or easy members.
