/** A chunk: several buddy shards under one slot numbering, with 64-slot superblocks carved out
    of them for single-slot allocations. Calls of any threads interleave; each locked section
    and each superblock call is one step. */
module ChunkSpec {
  import opened Bits
  import opened Words
  import opened Dyadic
  import opened Prelude
  import BS = BuddySpec
  import opened Superblock

  const SUPERBLOCK_ORDER: nat := 6

  // ---------------------------------------------------------------------------------------
  // Slot numbering
  // ---------------------------------------------------------------------------------------

  function FromShardLocal(shard: nat, slotsPerShard: nat, local: nat): nat {
    shard * slotsPerShard + local
  }

  function ShardOf(slot: nat, slotsPerShard: nat): nat
    requires slotsPerShard > 0
  {
    slot / slotsPerShard
  }

  function LocalOf(slot: nat, slotsPerShard: nat): nat
    requires slotsPerShard > 0
  {
    slot % slotsPerShard
  }

  function SuperblockIndex(slot: nat): nat {
    slot / SUPERBLOCK_SIZE
  }

  function SuperblockOffset(slot: nat): nat {
    slot % SUPERBLOCK_SIZE
  }

  function BaseSlot(superblock: nat): nat {
    superblock * SUPERBLOCK_SIZE
  }

  function FromSuperblockOffset(superblock: nat, offset: nat): nat {
    superblock * SUPERBLOCK_SIZE + offset
  }

  /** Splitting a slot number into shard and local index inverts putting them together. */
  lemma ShardRoundTrip(shard: nat, slotsPerShard: nat, local: nat)
    requires local < slotsPerShard
    ensures var slot := FromShardLocal(shard, slotsPerShard, local);
      ShardOf(slot, slotsPerShard) == shard && LocalOf(slot, slotsPerShard) == local
  {
    DivModUnique(FromShardLocal(shard, slotsPerShard, local), slotsPerShard, shard, local);
  }

  lemma ShardRoundTripBack(slot: nat, slotsPerShard: nat)
    requires slotsPerShard > 0
    ensures FromShardLocal(ShardOf(slot, slotsPerShard), slotsPerShard, LocalOf(slot, slotsPerShard)) == slot
    ensures LocalOf(slot, slotsPerShard) < slotsPerShard
  {
  }

  lemma MultipleOf64(shard: nat, slotsPerShard: nat, local: nat)
    requires slotsPerShard % 64 == 0 && local % 64 == 0
    ensures FromShardLocal(shard, slotsPerShard, local) % 64 == 0
  {
    var q := slotsPerShard / 64;
    assert shard * slotsPerShard == 64 * (shard * q);
    assert FromShardLocal(shard, slotsPerShard, local) == 64 * (shard * q + local / 64);
    MulMod(64, shard * q + local / 64);
  }

  /** The superblock a fresh order-6 block is turned into is that very block, for every shard and
      every aligned local index, exactly when the shard size is a multiple of 64. */
  lemma SuperblockIsItsBlockIff(shardCount: nat, slotsPerShard: nat)
    requires shardCount >= 2 && slotsPerShard >= 64
    ensures (forall shard: nat, local: nat ::
        shard < shardCount && local % 64 == 0 && local + 64 <= slotsPerShard ==>
          BaseSlot(SuperblockIndex(FromShardLocal(shard, slotsPerShard, local))) == FromShardLocal(shard, slotsPerShard, local))
      <==> slotsPerShard % 64 == 0
  {
    if slotsPerShard % 64 == 0 {
      forall shard: nat, local: nat | shard < shardCount && local % 64 == 0 && local + 64 <= slotsPerShard
        ensures BaseSlot(SuperblockIndex(FromShardLocal(shard, slotsPerShard, local))) == FromShardLocal(shard, slotsPerShard, local)
      {
        MultipleOf64(shard, slotsPerShard, local);
      }
    } else {
      assert FromShardLocal(1, slotsPerShard, 0) == slotsPerShard;
    }
  }

  // ---------------------------------------------------------------------------------------
  // Shard layout
  // ---------------------------------------------------------------------------------------

  /** How many shards the parallelism asks for, 16 at least. */
  function WantedShards(parallelism: nat): (r: nat)
    requires parallelism >= 1
    ensures r >= 16 && r >= parallelism && exists k: nat :: r == Pow2(k)
  {
    assert 16 == Pow2(4);
    if NextPow2(parallelism) >= 16 then NextPow2(parallelism) else 16
  }

  /** The number of shards for `total` slots on a machine of the given parallelism: a power of two, as wanted
      or, if that leaves fewer than 64 slots per shard, the largest that does not (1 if none does). */
  function ShardCount(parallelism: nat, total: nat): (r: nat)
    requires parallelism >= 1
    ensures r >= 1 && exists k: nat :: r == Pow2(k)
    ensures total >= 64 ==> r * 64 <= total
    ensures r <= WantedShards(parallelism) && (r < WantedShards(parallelism) ==> total < 2 * r * 64)
  {
    var wanted := WantedShards(parallelism);
    var maxShards := total / 64;
    if maxShards > 0 && wanted > maxShards then Pow2(Log2(maxShards))
    else if maxShards == 0 then (assert Pow2(0) == 1; 1)
    else wanted
  }

  /** The constructor does not make shard sizes multiples of 64: 1600 slots on up to 16 cores give
      16 shards of 100 slots, and the first superblock of shard 1 is mapped into shard 0. */
  lemma LayoutMayMisalign()
    ensures ShardCount(8, 1600) == 16 && 1600 / 16 == 100
    ensures var slot := FromShardLocal(1, 100, 0);
      slot == 100 && BaseSlot(SuperblockIndex(slot)) == 64 && ShardOf(64, 100) == 0
  {
    assert Pow2(3) == 8 && Pow2(4) == 16;
    assert NextPow2(8) == 8 by { Log2Of8(); }
  }

  lemma Log2Of8()
    ensures Log2(8) == 3
  {
    assert Log2(1) == 0 && Log2(2) == 1 && Log2(4) == 2;
  }

  // ---------------------------------------------------------------------------------------
  // State and steps
  // ---------------------------------------------------------------------------------------

  /** `held` are the superblocks in use, `toReturn` the ones some thread is about to give back
      after `free_one` or `set_inactive` told it to; `small` and `large` are the slots and blocks
      that clients own. `taken` and `returned` count how often each superblock was taken from and
      given back to its shard. */
  datatype Chunk = Chunk(
    slotsPerShard: nat,
    shards: seq<BS.World>,
    superblocks: seq<SbState>,
    held: set<nat>,
    toReturn: multiset<nat>,
    small: set<nat>,
    large: map<nat, nat>,
    taken: multiset<nat>,
    returned: multiset<nat>
  )

  datatype Step =
    | AllocLarge(shard: nat, order: nat)
    | OpenSuperblock(shard: nat)
    | AllocOne(superblock: nat, offset: nat)
    | FreeSmall(slot: nat)
    | Retire(superblock: nat)
    | ReturnSuperblock(superblock: nat)
    | FreeLarge(slot: nat)
    | ClientWrite(shard: nat, owned: nat, local: nat, value: nat)

  /** `[slot, slot + 2^order)` is a live block of its shard's buddy, for shards of `n` slots. */
  ghost predicate LiveAt(shards: seq<BS.World>, n: nat, slot: nat, order: nat)
    requires n > 0
  {
    var s, l := ShardOf(slot, n), LocalOf(slot, n);
    s < |shards| && l in shards[s].live && shards[s].live[l] == order
  }

  ghost predicate InBuddy(c: Chunk, slot: nat, order: nat)
    requires c.slotsPerShard > 0
  {
    LiveAt(c.shards, c.slotsPerShard, slot, order)
  }

  ghost predicate ShardOk(shards: seq<BS.World>, n: nat, s: nat)
    requires s < |shards|
  {
    BS.Valid(shards[s].s, shards[s].live) && shards[s].s.total == n
  }

  ghost predicate AllShardsOk(shards: seq<BS.World>, n: nat) {
    forall s: nat {:trigger ShardOk(shards, n, s)} :: s < |shards| ==> ShardOk(shards, n, s)
  }

  ghost predicate ShardsOk(c: Chunk) {
    AllShardsOk(c.shards, c.slotsPerShard)
  }

  ghost predicate Layout(c: Chunk) {
    c.slotsPerShard > 0 && c.slotsPerShard % 64 == 0 && |c.shards| * c.slotsPerShard <= |c.superblocks| * 64
  }

  ghost predicate IsHeldBase(c: Chunk, slot: nat) {
    slot % 64 == 0 && slot / 64 in c.held
  }

  /** Every live block of a shard is a client's large block or a superblock, not both. */
  ghost predicate Tagged(c: Chunk) {
    forall s: nat, l: nat {:trigger FromShardLocal(s, c.slotsPerShard, l)} :: s < |c.shards| && l in c.shards[s].live ==>
      TaggedAt(c, FromShardLocal(s, c.slotsPerShard, l), c.shards[s].live[l])
  }

  ghost predicate TaggedAt(c: Chunk, slot: nat, order: nat) {
    if IsHeldBase(c, slot) then order == SUPERBLOCK_ORDER && slot !in c.large
    else slot in c.large && c.large[slot] == order
  }

  ghost predicate OwnersOk(c: Chunk)
    requires c.slotsPerShard > 0
  {
    && (forall g :: g in c.large ==> InBuddy(c, g, c.large[g]))
    && (forall k :: k in c.held ==> k < |c.superblocks| && InBuddy(c, BaseSlot(k), SUPERBLOCK_ORDER))
  }

  /** Masks agree with the slots clients own, and a superblock nobody can use is on its way back. */
  ghost predicate SuperblocksOk(c: Chunk) {
    && (forall k :: 0 <= k < |c.superblocks| ==> c.superblocks[k].mask <= FULL)
    && (forall k :: 0 <= k < |c.superblocks| && c.superblocks[k].active ==> k in c.held)
    && (forall slot :: slot in c.small ==>
          SuperblockIndex(slot) in c.held && SuperblockIndex(slot) < |c.superblocks|
          && SuperblockOffset(slot) !in c.superblocks[SuperblockIndex(slot)].mask)
    && (forall k :: k in c.toReturn ==>
          c.toReturn[k] == 1 && k in c.held && k < |c.superblocks|
          && !c.superblocks[k].active && c.superblocks[k].mask == FULL)
    && (forall k :: k in c.held && k < |c.superblocks| && !c.superblocks[k].active && c.superblocks[k].mask == FULL ==>
          k in c.toReturn)
  }

  ghost predicate MasksComplete(c: Chunk) {
    forall k: nat, j: nat {:trigger FromSuperblockOffset(k, j)} ::
      k in c.held && k < |c.superblocks| && j < 64 && j !in c.superblocks[k].mask ==> FromSuperblockOffset(k, j) in c.small
  }

  /** Every superblock taken has been given back once, except the ones in use. */
  ghost predicate EpochsOk(c: Chunk) {
    forall k :: c.taken[k] == c.returned[k] + (if k in c.held then 1 else 0)
  }

  ghost predicate Inv(c: Chunk) {
    Layout(c) && ShardsOk(c) && Tagged(c) && OwnersOk(c) && SuperblocksOk(c) && MasksComplete(c) && EpochsOk(c)
  }

  /** What a step needs: clients free and write only what they own, the owner of a superblock acts
      only while it is active, and a thread returns a superblock only when told to. */
  ghost predicate Enabled(c: Chunk, step: Step)
    requires Inv(c)
  {
    match step
    case AllocLarge(shard, order) => shard < |c.shards| && 1 <= order
    case OpenSuperblock(shard) => shard < |c.shards|
    case AllocOne(k, j) => k < |c.superblocks| && c.superblocks[k].active && LowestBit(c.superblocks[k].mask, j)
    case FreeSmall(slot) => slot in c.small
    case Retire(k) => k < |c.superblocks| && c.superblocks[k].active
    case ReturnSuperblock(k) => k in c.toReturn
    case FreeLarge(slot) => slot in c.large
    case ClientWrite(shard, owned, local, _) =>
      shard < |c.shards| && owned in c.shards[shard].live && Covers(Block(owned, c.shards[shard].live[owned]), local)
  }

  /** `buddy.alloc` under one shard's lock, with the chunk-wide slot it yields. */
  ghost function ShardAlloc(c: Chunk, shard: nat, order: nat): (r: (Chunk, Option<nat>))
    requires ShardsOk(c) && shard < |c.shards|
  {
    assert ShardOk(c.shards, c.slotsPerShard, shard);
    var w := c.shards[shard];
    BS.AllocKeeps(w.s, w.live, order);
    var local := BS.Alloc(w.s, order).1;
    (c.(shards := c.shards[shard := BS.Perform(w, BS.AllocOp(order))]),
     if local.None? then None else Some(FromShardLocal(shard, c.slotsPerShard, local.value)))
  }

  /** `dealloc_global`, with the verdict of the shard's `dealloc`. */
  ghost function ShardFree(c: Chunk, slot: nat, order: nat): (r: (Chunk, BS.FreeResult))
    requires c.slotsPerShard > 0 && ShardsOk(c) && InBuddy(c, slot, order)
  {
    var s, l := ShardOf(slot, c.slotsPerShard), LocalOf(slot, c.slotsPerShard);
    assert ShardOk(c.shards, c.slotsPerShard, s);
    var w := c.shards[s];
    BS.DeallocKeeps(w.s, w.live, l, order);
    (c.(shards := c.shards[s := BS.Perform(w, BS.FreeOp(l))]), BS.Dealloc(w.s, l, order).1)
  }

  ghost function DoAllocLarge(c: Chunk, shard: nat, order: nat): Chunk
    requires ShardsOk(c) && shard < |c.shards|
  {
    var (c', r) := ShardAlloc(c, shard, order);
    if r.None? then c' else c'.(large := c.large[r.value := order])
  }

  ghost function DoOpen(c: Chunk, shard: nat): Chunk
    requires Layout(c) && ShardsOk(c) && shard < |c.shards|
  {
    var (c', r) := ShardAlloc(c, shard, SUPERBLOCK_ORDER);
    if r.None? then c'
    else
      FreshSlotInRange(c, shard, SUPERBLOCK_ORDER);
      var k := SuperblockIndex(r.value);
      c'.(superblocks := c.superblocks[k := OPENED], held := c.held + {k}, taken := c.taken + multiset{k})
  }

  ghost function DoAllocOne(c: Chunk, k: nat, j: nat): Chunk
    requires k < |c.superblocks|
  {
    c.(superblocks := c.superblocks[k := TakeSlot(c.superblocks[k], j)],
       small := c.small + {FromSuperblockOffset(k, j)})
  }

  ghost function DoFreeSmall(c: Chunk, slot: nat): Chunk
    requires SuperblockIndex(slot) < |c.superblocks|
  {
    var k, j := SuperblockIndex(slot), SuperblockOffset(slot);
    var (st, give) := FreeSlot(c.superblocks[k], j);
    c.(superblocks := c.superblocks[k := st],
       small := c.small - {slot},
       toReturn := if give then c.toReturn + multiset{k} else c.toReturn)
  }

  ghost function DoRetire(c: Chunk, k: nat): Chunk
    requires k < |c.superblocks|
  {
    var (st, give) := LetGo(c.superblocks[k]);
    c.(superblocks := c.superblocks[k := st], toReturn := if give then c.toReturn + multiset{k} else c.toReturn)
  }

  ghost function DoReturn(c: Chunk, k: nat): Chunk
    requires c.slotsPerShard > 0 && ShardsOk(c) && InBuddy(c, BaseSlot(k), SUPERBLOCK_ORDER)
  {
    ShardFree(c, BaseSlot(k), SUPERBLOCK_ORDER).0.(
      held := c.held - {k}, toReturn := c.toReturn - multiset{k}, returned := c.returned + multiset{k})
  }

  ghost function DoFreeLarge(c: Chunk, slot: nat): Chunk
    requires c.slotsPerShard > 0 && ShardsOk(c) && slot in c.large && InBuddy(c, slot, c.large[slot])
  {
    ShardFree(c, slot, c.large[slot]).0.(large := c.large - {slot})
  }

  ghost function DoWrite(c: Chunk, shard: nat, owned: nat, local: nat, value: nat): Chunk
    requires ShardsOk(c) && shard < |c.shards|
    requires owned in c.shards[shard].live && Covers(Block(owned, c.shards[shard].live[owned]), local)
  {
    assert ShardOk(c.shards, c.slotsPerShard, shard);
    c.(shards := c.shards[shard := BS.Perform(c.shards[shard], BS.WriteOp(owned, local, value))])
  }

  ghost function Do(c: Chunk, step: Step): Chunk
    requires Inv(c) && Enabled(c, step)
  {
    match step
    case AllocLarge(shard, order) => DoAllocLarge(c, shard, order)
    case OpenSuperblock(shard) => DoOpen(c, shard)
    case AllocOne(k, j) => DoAllocOne(c, k, j)
    case FreeSmall(slot) => DoFreeSmall(c, slot)
    case Retire(k) => DoRetire(c, k)
    case ReturnSuperblock(k) => DoReturn(c, k)
    case FreeLarge(slot) => DoFreeLarge(c, slot)
    case ClientWrite(shard, owned, local, value) => DoWrite(c, shard, owned, local, value)
  }

  // ---------------------------------------------------------------------------------------
  // What shard operations change
  // ---------------------------------------------------------------------------------------

  lemma ShardEnd(shard: nat, count: nat, n: nat)
    requires shard < count
    ensures shard * n + n <= count * n
  {
    var d := count - 1 - shard;
    assert count * n == shard * n + n + n * d;
    if n > 0 && d > 0 {
      MulAtLeast(n, d);
    }
  }

  lemma ShardFits(c: Chunk, shard: nat, local: nat, size: nat)
    requires Layout(c) && shard < |c.shards| && local + size <= c.slotsPerShard
    ensures FromShardLocal(shard, c.slotsPerShard, local) + size <= |c.superblocks| * 64
  {
    ShardEnd(shard, |c.shards|, c.slotsPerShard);
  }

  lemma LiveFits(c: Chunk, s: nat, l: nat)
    requires ShardsOk(c) && s < |c.shards| && l in c.shards[s].live
    ensures l + Pow2(c.shards[s].live[l]) <= c.slotsPerShard && ZeroBits(l, c.shards[s].live[l])
  {
    assert ShardOk(c.shards, c.slotsPerShard, s);
    var w := c.shards[s];
    assert Block(l, w.live[l]) in BS.AllBlocks(w.s, w.live, {});
  }

  /** The block a shard hands out is new to it, inside it, and aligned. */
  lemma FreshSlotInRange(c: Chunk, shard: nat, order: nat)
    requires Layout(c) && ShardsOk(c) && shard < |c.shards|
    ensures var (c', r) := ShardAlloc(c, shard, order);
      && c' == c.(shards := c'.shards) && |c'.shards| == |c.shards| && ShardsOk(c')
      && (forall t :: 0 <= t < |c.shards| && t != shard ==> c'.shards[t] == c.shards[t])
      && (r.None? ==> c'.shards[shard].live == c.shards[shard].live)
      && (r.Some? ==>
            var l := LocalOf(r.value, c.slotsPerShard);
            && ShardOf(r.value, c.slotsPerShard) == shard
            && l !in c.shards[shard].live
            && c'.shards[shard].live == c.shards[shard].live[l := order]
            && (order == SUPERBLOCK_ORDER ==> r.value % 64 == 0 && SuperblockIndex(r.value) < |c.superblocks|))
  {
    assert ShardOk(c.shards, c.slotsPerShard, shard);
    var w := c.shards[shard];
    BS.AllocKeeps(w.s, w.live, order);
    var (c', r) := ShardAlloc(c, shard, order);
    OneShardChanged(c, c', shard);
    if r.Some? {
      var l := BS.Alloc(w.s, order).1.value;
      LiveFits(c', shard, l);
      ShardRoundTrip(shard, c.slotsPerShard, l);
      if order == SUPERBLOCK_ORDER {
        assert Pow2(6) == 64;
        AlignedIsMultiple(l, 6);
        MultipleOf64(shard, c.slotsPerShard, l);
        ShardFits(c, shard, l, 64);
      }
    }
  }

  lemma FreedSlot(c: Chunk, slot: nat, order: nat)
    requires c.slotsPerShard > 0 && ShardsOk(c) && InBuddy(c, slot, order)
    ensures var (c', r) := ShardFree(c, slot, order);
      var s, l := ShardOf(slot, c.slotsPerShard), LocalOf(slot, c.slotsPerShard);
      && r == BS.Freed
      && c' == c.(shards := c'.shards) && |c'.shards| == |c.shards| && ShardsOk(c')
      && (forall t :: 0 <= t < |c.shards| && t != s ==> c'.shards[t] == c.shards[t])
      && c'.shards[s].live == c.shards[s].live - {l}
  {
    var s, l := ShardOf(slot, c.slotsPerShard), LocalOf(slot, c.slotsPerShard);
    assert ShardOk(c.shards, c.slotsPerShard, s);
    BS.DeallocKeeps(c.shards[s].s, c.shards[s].live, l, order);
    OneShardChanged(c, ShardFree(c, slot, order).0, s);
  }

  lemma OneShardChanged(c: Chunk, c': Chunk, s: nat)
    requires ShardsOk(c) && s < |c.shards| == |c'.shards| && c'.slotsPerShard == c.slotsPerShard
    requires ShardOk(c'.shards, c'.slotsPerShard, s)
    requires forall t :: 0 <= t < |c.shards| && t != s ==> c'.shards[t] == c.shards[t]
    ensures ShardsOk(c')
  {
    forall t: nat | t < |c'.shards|
      ensures ShardOk(c'.shards, c'.slotsPerShard, t)
    {
      assert ShardOk(c.shards, c.slotsPerShard, t);
    }
  }

  /** Two slots with the same shard and local index are one slot. */
  lemma SlotUnique(n: nat, a: nat, b: nat)
    requires n > 0 && ShardOf(a, n) == ShardOf(b, n) && LocalOf(a, n) == LocalOf(b, n)
    ensures a == b
  {
    ShardRoundTripBack(a, n);
    ShardRoundTripBack(b, n);
  }

  lemma TagOf(c: Chunk, s: nat, l: nat)
    requires Inv(c) && s < |c.shards| && l in c.shards[s].live
    ensures TaggedAt(c, FromShardLocal(s, c.slotsPerShard, l), c.shards[s].live[l])
  {
  }

  // ---------------------------------------------------------------------------------------
  // Every step keeps the invariant
  // ---------------------------------------------------------------------------------------

  /** `c'` differs from `c` in the shards by one more live block, at `slot`. */
  ghost predicate Gained(c: Chunk, c': Chunk, slot: nat, order: nat)
    requires c.slotsPerShard > 0
  {
    var s, l := ShardOf(slot, c.slotsPerShard), LocalOf(slot, c.slotsPerShard);
    && c'.slotsPerShard == c.slotsPerShard && |c'.shards| == |c.shards| && s < |c.shards|
    && (forall t :: 0 <= t < |c.shards| && t != s ==> c'.shards[t] == c.shards[t])
    && l !in c.shards[s].live && c'.shards[s].live == c.shards[s].live[l := order]
  }

  lemma GainedElsewhere(c: Chunk, c': Chunk, slot: nat, order: nat, g: nat, o: nat)
    requires c.slotsPerShard > 0 && Gained(c, c', slot, order) && InBuddy(c, g, o)
    ensures g != slot && InBuddy(c', g, o)
  {
  }

  lemma GainKeepsTags(c: Chunk, c': Chunk, slot: nat, order: nat)
    requires Inv(c) && ShardsOk(c') && Gained(c, c', slot, order)
    requires TaggedAt(c', slot, order)
    requires forall g, o :: g != slot && TaggedAt(c, g, o) ==> TaggedAt(c', g, o)
    ensures Tagged(c')
  {
    forall s: nat, l: nat | s < |c'.shards| && l in c'.shards[s].live
      ensures TaggedAt(c', FromShardLocal(s, c'.slotsPerShard, l), c'.shards[s].live[l])
    {
      LiveFits(c', s, l);
      ShardRoundTrip(s, c.slotsPerShard, l);
      ShardRoundTripBack(slot, c.slotsPerShard);
      if l in c.shards[s].live {
        TagOf(c, s, l);
      }
    }
  }

  lemma GainLargeOwners(c: Chunk, c': Chunk, slot: nat, order: nat)
    requires c.slotsPerShard > 0 && OwnersOk(c) && Gained(c, c', slot, order)
    requires c' == c.(shards := c'.shards, large := c.large[slot := order])
    ensures OwnersOk(c')
  {
    forall g | g in c'.large
      ensures InBuddy(c', g, c'.large[g])
    {
      if g != slot {
        GainedElsewhere(c, c', slot, order, g, c.large[g]);
      }
    }
    forall k | k in c'.held
      ensures k < |c'.superblocks| && InBuddy(c', BaseSlot(k), SUPERBLOCK_ORDER)
    {
      GainedElsewhere(c, c', slot, order, BaseSlot(k), SUPERBLOCK_ORDER);
    }
  }

  lemma GainLarge(c: Chunk, c': Chunk, slot: nat, order: nat)
    requires Inv(c) && ShardsOk(c') && Gained(c, c', slot, order)
    requires c' == c.(shards := c'.shards, large := c.large[slot := order])
    ensures Inv(c')
  {
    NewSlotUntagged(c, c', slot, order);
    GainKeepsTags(c, c', slot, order);
    GainLargeOwners(c, c', slot, order);
  }

  lemma AllocLargeKeeps(c: Chunk, shard: nat, order: nat)
    requires Inv(c) && shard < |c.shards|
    ensures Inv(DoAllocLarge(c, shard, order))
  {
    FreshSlotInRange(c, shard, order);
    var (c1, r) := ShardAlloc(c, shard, order);
    var c' := DoAllocLarge(c, shard, order);
    if r.Some? {
      GainLarge(c, c', r.value, order);
    } else {
      SameLiveKeeps(c, c');
    }
  }

  /** A slot about to become live is neither a large block nor the base of a held superblock. */
  lemma NewSlotUntagged(c: Chunk, c': Chunk, slot: nat, order: nat)
    requires Inv(c) && Gained(c, c', slot, order)
    ensures slot !in c.large && !IsHeldBase(c, slot)
  {
    assert BaseSlot(slot / 64) == slot || slot % 64 != 0;
  }

  lemma SameLiveOwners(c: Chunk, c': Chunk)
    requires c.slotsPerShard > 0 && OwnersOk(c) && c' == c.(shards := c'.shards) && |c'.shards| == |c.shards|
    requires forall t :: 0 <= t < |c.shards| ==> c'.shards[t].live == c.shards[t].live
    ensures OwnersOk(c')
  {
    forall g: nat, o: nat | InBuddy(c, g, o)
      ensures InBuddy(c', g, o)
    {
    }
  }

  /** Steps that change no live map keep everything said about shards. */
  lemma SameLiveKeeps(c: Chunk, c': Chunk)
    requires Inv(c) && ShardsOk(c') && c' == c.(shards := c'.shards) && |c'.shards| == |c.shards|
    requires forall t :: 0 <= t < |c.shards| ==> c'.shards[t].live == c.shards[t].live
    ensures Inv(c')
  {
    SameLiveOwners(c, c');
    forall s: nat, l: nat | s < |c'.shards| && l in c'.shards[s].live
      ensures TaggedAt(c', FromShardLocal(s, c'.slotsPerShard, l), c'.shards[s].live[l])
    {
      TagOf(c, s, l);
    }
    assert SuperblocksOk(c') && MasksComplete(c') && EpochsOk(c');
  }

  lemma OpenKeepsMasks(c: Chunk, c': Chunk, k: nat)
    requires SuperblocksOk(c) && MasksComplete(c) && k < |c.superblocks| && k !in c.held
    requires c'.superblocks == c.superblocks[k := OPENED] && c'.held == c.held + {k}
    requires c'.small == c.small && c'.toReturn == c.toReturn
    ensures SuperblocksOk(c') && MasksComplete(c')
  {
    forall m: nat, j: nat | m in c'.held && m < |c'.superblocks| && j < 64 && j !in c'.superblocks[m].mask
      ensures FromSuperblockOffset(m, j) in c'.small
    {
      assert j in FULL;
    }
  }

  lemma OpenKeepsOwners(c: Chunk, c': Chunk, k: nat)
    requires Inv(c) && k < |c.superblocks| == |c'.superblocks| && Gained(c, c', BaseSlot(k), SUPERBLOCK_ORDER)
    requires c'.held == c.held + {k} && c'.large == c.large
    ensures OwnersOk(c')
  {
    forall g | g in c'.large
      ensures InBuddy(c', g, c'.large[g])
    {
      GainedElsewhere(c, c', BaseSlot(k), SUPERBLOCK_ORDER, g, c.large[g]);
    }
    forall m | m in c'.held
      ensures m < |c'.superblocks| && InBuddy(c', BaseSlot(m), SUPERBLOCK_ORDER)
    {
      if m != k {
        GainedElsewhere(c, c', BaseSlot(k), SUPERBLOCK_ORDER, BaseSlot(m), SUPERBLOCK_ORDER);
      }
    }
  }

  lemma TagsWith(c: Chunk, c': Chunk, k: nat)
    requires c'.held == c.held + {k} && c'.large == c.large && BaseSlot(k) !in c.large
    ensures TaggedAt(c', BaseSlot(k), SUPERBLOCK_ORDER)
    ensures forall g, o :: g != BaseSlot(k) && TaggedAt(c, g, o) ==> TaggedAt(c', g, o)
  {
    assert BaseSlot(k) % 64 == 0 && BaseSlot(k) / 64 == k;
    forall g: nat, o: nat | g != BaseSlot(k) && TaggedAt(c, g, o)
      ensures TaggedAt(c', g, o)
    {
      assert g % 64 == 0 ==> g / 64 != k;
    }
  }

  lemma OpenKeepsTags(c: Chunk, c': Chunk, k: nat)
    requires Inv(c) && ShardsOk(c') && Gained(c, c', BaseSlot(k), SUPERBLOCK_ORDER)
    requires c'.held == c.held + {k} && c'.large == c.large
    ensures k !in c.held && Tagged(c')
  {
    NewSlotUntagged(c, c', BaseSlot(k), SUPERBLOCK_ORDER);
    assert BaseSlot(k) % 64 == 0 && BaseSlot(k) / 64 == k;
    TagsWith(c, c', k);
    GainKeepsTags(c, c', BaseSlot(k), SUPERBLOCK_ORDER);
  }

  lemma GainSuperblock(c: Chunk, c': Chunk, k: nat)
    requires Inv(c) && ShardsOk(c') && k < |c.superblocks| && Gained(c, c', BaseSlot(k), SUPERBLOCK_ORDER)
    requires c' == c.(shards := c'.shards, superblocks := c.superblocks[k := OPENED],
                      held := c.held + {k}, taken := c.taken + multiset{k})
    ensures Inv(c')
  {
    OpenKeepsTags(c, c', k);
    OpenKeepsMasks(c, c', k);
    OpenKeepsOwners(c, c', k);
  }

  lemma OpenKeeps(c: Chunk, shard: nat)
    requires Inv(c) && shard < |c.shards|
    ensures Inv(DoOpen(c, shard))
  {
    FreshSlotInRange(c, shard, SUPERBLOCK_ORDER);
    var (c1, r) := ShardAlloc(c, shard, SUPERBLOCK_ORDER);
    var c' := DoOpen(c, shard);
    if r.Some? {
      var k := SuperblockIndex(r.value);
      assert BaseSlot(k) == r.value;
      GainSuperblock(c, c', k);
    } else {
      SameLiveKeeps(c, c');
    }
  }

  /** `c'` differs from `c` in the shards by one live block less, at `slot`. */
  ghost predicate Lost(c: Chunk, c': Chunk, slot: nat)
    requires c.slotsPerShard > 0
  {
    var s, l := ShardOf(slot, c.slotsPerShard), LocalOf(slot, c.slotsPerShard);
    && c'.slotsPerShard == c.slotsPerShard && |c'.shards| == |c.shards| && s < |c.shards|
    && (forall t :: 0 <= t < |c.shards| && t != s ==> c'.shards[t] == c.shards[t])
    && c'.shards[s].live == c.shards[s].live - {l}
  }

  lemma LostElsewhere(c: Chunk, c': Chunk, slot: nat, g: nat, o: nat)
    requires c.slotsPerShard > 0 && Lost(c, c', slot) && InBuddy(c, g, o) && g != slot
    ensures InBuddy(c', g, o)
  {
    if ShardOf(g, c.slotsPerShard) == ShardOf(slot, c.slotsPerShard) && LocalOf(g, c.slotsPerShard) == LocalOf(slot, c.slotsPerShard) {
      SlotUnique(c.slotsPerShard, g, slot);
    }
  }

  lemma LossKeepsTags(c: Chunk, c': Chunk, slot: nat)
    requires Inv(c) && ShardsOk(c') && Lost(c, c', slot)
    requires forall g, o :: g != slot && TaggedAt(c, g, o) ==> TaggedAt(c', g, o)
    ensures Tagged(c')
  {
    forall s: nat, l: nat | s < |c'.shards| && l in c'.shards[s].live
      ensures TaggedAt(c', FromShardLocal(s, c'.slotsPerShard, l), c'.shards[s].live[l])
    {
      LiveFits(c', s, l);
      ShardRoundTrip(s, c.slotsPerShard, l);
      TagOf(c, s, l);
    }
  }

  lemma FreeLargeKeeps(c: Chunk, slot: nat)
    requires Inv(c) && slot in c.large
    ensures Inv(DoFreeLarge(c, slot))
  {
    FreedSlot(c, slot, c.large[slot]);
    var c' := DoFreeLarge(c, slot);
    LossKeepsTags(c, c', slot);
    forall g | g in c'.large
      ensures InBuddy(c', g, c'.large[g])
    {
      LostElsewhere(c, c', slot, g, c.large[g]);
    }
    LargeIsNotHeld(c, slot);
    forall k | k in c'.held
      ensures k < |c'.superblocks| && InBuddy(c', BaseSlot(k), SUPERBLOCK_ORDER)
    {
      LostElsewhere(c, c', slot, BaseSlot(k), SUPERBLOCK_ORDER);
    }
  }

  lemma LargeIsNotHeld(c: Chunk, slot: nat)
    requires Inv(c) && slot in c.large
    ensures !IsHeldBase(c, slot) && forall k :: k in c.held ==> BaseSlot(k) != slot
  {
    assert InBuddy(c, slot, c.large[slot]);
    ShardRoundTripBack(slot, c.slotsPerShard);
    TagOf(c, ShardOf(slot, c.slotsPerShard), LocalOf(slot, c.slotsPerShard));
    assert !IsHeldBase(c, slot);
    HeldBases(c, slot);
  }

  lemma HeldBases(c: Chunk, slot: nat)
    requires !IsHeldBase(c, slot)
    ensures forall k :: k in c.held ==> BaseSlot(k) != slot
  {
    forall k | k in c.held
      ensures BaseSlot(k) != slot
    {
      assert BaseSlot(k) % 64 == 0 && BaseSlot(k) / 64 == k;
    }
  }

  lemma ReturnKeepsMasks(c: Chunk, c': Chunk, k: nat)
    requires SuperblocksOk(c) && MasksComplete(c) && k in c.toReturn
    requires c'.superblocks == c.superblocks && c'.held == c.held - {k}
    requires c'.small == c.small && c'.toReturn == c.toReturn - multiset{k}
    ensures SuperblocksOk(c') && MasksComplete(c')
  {
    forall x | x in c'.small
      ensures SuperblockIndex(x) in c'.held
    {
      assert SuperblockOffset(x) in FULL;
    }
  }

  lemma ReturnKeepsOwners(c: Chunk, c': Chunk, k: nat)
    requires Inv(c) && k in c.held && Lost(c, c', BaseSlot(k))
    requires c'.held == c.held - {k} && c'.large == c.large && |c'.superblocks| == |c.superblocks|
    ensures OwnersOk(c')
  {
    forall g | g in c'.large
      ensures InBuddy(c', g, c'.large[g])
    {
      LargeIsNotHeld(c, g);
      LostElsewhere(c, c', BaseSlot(k), g, c.large[g]);
    }
    forall m | m in c'.held
      ensures m < |c'.superblocks| && InBuddy(c', BaseSlot(m), SUPERBLOCK_ORDER)
    {
      LostElsewhere(c, c', BaseSlot(k), BaseSlot(m), SUPERBLOCK_ORDER);
    }
  }

  lemma ReturnKeeps(c: Chunk, k: nat)
    requires Inv(c) && k in c.toReturn
    ensures Inv(DoReturn(c, k))
  {
    var slot := BaseSlot(k);
    FreedSlot(c, slot, SUPERBLOCK_ORDER);
    var c' := DoReturn(c, k);
    assert Lost(c, c', slot);
    ReturnKeepsMasks(c, c', k);
    ReturnKeepsOwners(c, c', k);
    TagsWithout(c, c', k);
    LossKeepsTags(c, c', slot);
  }

  lemma TagsWithout(c: Chunk, c': Chunk, k: nat)
    requires c'.held == c.held - {k} && c'.large == c.large
    ensures forall g, o :: g != BaseSlot(k) && TaggedAt(c, g, o) ==> TaggedAt(c', g, o)
  {
    forall g: nat, o: nat | g != BaseSlot(k) && TaggedAt(c, g, o)
      ensures TaggedAt(c', g, o)
    {
      assert g % 64 == 0 ==> g / 64 != k;
    }
  }

  /** Steps inside superblocks leave the shards alone. */
  lemma ShardsUntouched(c: Chunk, c': Chunk)
    requires Inv(c)
    requires c' == c.(superblocks := c'.superblocks, small := c'.small, toReturn := c'.toReturn)
    requires |c'.superblocks| == |c.superblocks|
    ensures Layout(c') && ShardsOk(c') && Tagged(c') && OwnersOk(c')
  {
    forall s: nat, l: nat | s < |c'.shards| && l in c'.shards[s].live
      ensures TaggedAt(c', FromShardLocal(s, c'.slotsPerShard, l), c'.shards[s].live[l])
    {
      TagOf(c, s, l);
    }
  }

  lemma AllocOneKeeps(c: Chunk, k: nat, j: nat)
    requires Inv(c) && k < |c.superblocks| && c.superblocks[k].active && LowestBit(c.superblocks[k].mask, j)
    ensures Inv(DoAllocOne(c, k, j))
    ensures FromSuperblockOffset(k, j) !in c.small
  {
    var c' := DoAllocOne(c, k, j);
    ShardsUntouched(c, c');
    assert j in FULL;
    var slot := FromSuperblockOffset(k, j);
    assert SuperblockIndex(slot) == k && SuperblockOffset(slot) == j;
    forall x | x in c'.small
      ensures SuperblockIndex(x) in c'.held && SuperblockIndex(x) < |c'.superblocks|
      ensures SuperblockOffset(x) !in c'.superblocks[SuperblockIndex(x)].mask
    {
    }
    forall m: nat, i: nat | m in c'.held && m < |c'.superblocks| && i < 64 && i !in c'.superblocks[m].mask
      ensures FromSuperblockOffset(m, i) in c'.small
    {
      assert m != k || i != j ==> i !in c.superblocks[m].mask;
    }
  }

  lemma FreeSmallKeepsMasks(c: Chunk, c': Chunk, k: nat, j: nat)
    requires SuperblocksOk(c) && MasksComplete(c) && j < 64 && FromSuperblockOffset(k, j) in c.small
    requires k < |c.superblocks| && c' == DoFreeSmall(c, FromSuperblockOffset(k, j))
    ensures SuperblocksOk(c') && MasksComplete(c')
  {
    var slot := FromSuperblockOffset(k, j);
    assert SuperblockIndex(slot) == k && SuperblockOffset(slot) == j && j in FULL;
    assert k !in c.toReturn;
    forall x | x in c'.small
      ensures SuperblockIndex(x) in c'.held && SuperblockIndex(x) < |c'.superblocks|
      ensures SuperblockOffset(x) !in c'.superblocks[SuperblockIndex(x)].mask
    {
      assert x == FromSuperblockOffset(SuperblockIndex(x), SuperblockOffset(x));
    }
  }

  lemma FreeSmallKeeps(c: Chunk, slot: nat)
    requires Inv(c) && slot in c.small
    ensures Inv(DoFreeSmall(c, slot))
  {
    ShardsUntouched(c, DoFreeSmall(c, slot));
    assert slot == FromSuperblockOffset(SuperblockIndex(slot), SuperblockOffset(slot));
    FreeSmallKeepsMasks(c, DoFreeSmall(c, slot), SuperblockIndex(slot), SuperblockOffset(slot));
  }

  lemma RetireKeeps(c: Chunk, k: nat)
    requires Inv(c) && k < |c.superblocks| && c.superblocks[k].active
    ensures Inv(DoRetire(c, k))
  {
    var c' := DoRetire(c, k);
    ShardsUntouched(c, c');
    assert k !in c.toReturn;
  }

  lemma WriteKeeps(c: Chunk, shard: nat, owned: nat, local: nat, value: nat)
    requires Inv(c) && Enabled(c, ClientWrite(shard, owned, local, value))
    ensures Inv(DoWrite(c, shard, owned, local, value))
  {
    assert ShardOk(c.shards, c.slotsPerShard, shard);
    OneShardChanged(c, DoWrite(c, shard, owned, local, value), shard);
    SameLiveKeeps(c, DoWrite(c, shard, owned, local, value));
  }

  lemma StepKeeps(c: Chunk, step: Step)
    requires Inv(c) && Enabled(c, step)
    ensures Inv(Do(c, step))
  {
    match step
    case AllocLarge(shard, order) => AllocLargeKeeps(c, shard, order);
    case OpenSuperblock(shard) => OpenKeeps(c, shard);
    case AllocOne(k, j) => AllocOneKeeps(c, k, j);
    case FreeSmall(slot) => FreeSmallKeeps(c, slot);
    case Retire(k) => RetireKeeps(c, k);
    case ReturnSuperblock(k) => ReturnKeeps(c, k);
    case FreeLarge(slot) => FreeLargeKeeps(c, slot);
    case ClientWrite(shard, owned, local, value) => WriteKeeps(c, shard, owned, local, value);
  }

  // ---------------------------------------------------------------------------------------
  // Whole runs
  // ---------------------------------------------------------------------------------------

  /** A chunk just built: every shard fresh, every superblock "full and inactive". */
  ghost predicate Fresh(c: Chunk) {
    && Layout(c) && ShardsOk(c)
    && (forall s :: 0 <= s < |c.shards| ==> c.shards[s].live == map[])
    && (forall k :: 0 <= k < |c.superblocks| ==> c.superblocks[k] == SbState({}, false))
    && c.held == {} && c.toReturn == multiset{} && c.small == {} && c.large == map[]
    && c.taken == multiset{} && c.returned == multiset{}
  }

  ghost predicate Runs(c: Chunk, steps: seq<Step>, c': Chunk)
    requires Inv(c)
    decreases |steps|
  {
    if steps == [] then c == c'
    else
      Enabled(c, steps[0]) &&
      (StepKeeps(c, steps[0]); Runs(Do(c, steps[0]), steps[1..], c'))
  }

  lemma FreshIsSafe(c: Chunk)
    requires Fresh(c)
    ensures Inv(c)
  {
  }

  /** There is a fresh chunk for every number of shards of any multiple of 64 slots. */
  lemma FreshChunkExists(count: nat, slotsPerShard: nat) returns (c: Chunk)
    requires slotsPerShard > 0 && slotsPerShard % 64 == 0
    ensures Fresh(c) && |c.shards| == count && c.slotsPerShard == slotsPerShard
  {
    var arena := BS.FreshArenaExists(slotsPerShard);
    var q := slotsPerShard / 64;
    assert count * slotsPerShard == (count * q) * 64;
    c := Chunk(slotsPerShard, seq(count, _ => BS.World(arena, map[])), seq(count * q, _ => SbState({}, false)),
               {}, multiset{}, {}, map[], multiset{}, multiset{});
    forall s: nat | s < |c.shards|
      ensures ShardOk(c.shards, slotsPerShard, s)
    {
    }
  }

  lemma {:induction false} RunKeeps(c: Chunk, steps: seq<Step>, c': Chunk)
    requires Inv(c) && Runs(c, steps, c')
    ensures Inv(c')
    decreases |steps|
  {
    if steps != [] {
      StepKeeps(c, steps[0]);
      RunKeeps(Do(c, steps[0]), steps[1..], c');
    }
  }

  datatype Allocation = Slot(slot: nat) | Large(slot: nat, order: nat)

  ghost predicate Owned(c: Chunk, a: Allocation) {
    match a
    case Slot(slot) => slot in c.small
    case Large(slot, order) => slot in c.large && c.large[slot] == order
  }

  function Size(a: Allocation): nat {
    if a.Slot? then 1 else Pow2(a.order)
  }

  ghost predicate Apart(a: nat, m: nat, b: nat, n: nat) {
    a + m <= b || b + n <= a
  }

  lemma ShardsApart(s: nat, l: nat, m: nat, t: nat, l': nat, m': nat, n: nat)
    requires s != t && l + m <= n && l' + m' <= n
    ensures Apart(FromShardLocal(s, n, l), m, FromShardLocal(t, n, l'), m')
  {
    if s < t {
      ShardEnd(s, t, n);
    } else {
      ShardEnd(t, s, n);
    }
  }

  /** Live blocks of the shards do not overlap in the chunk-wide numbering. */
  lemma BuddyBlocksApart(c: Chunk, a: nat, order: nat, b: nat, order': nat)
    requires Inv(c) && InBuddy(c, a, order) && InBuddy(c, b, order') && a != b
    ensures Apart(a, Pow2(order), b, Pow2(order'))
  {
    var n := c.slotsPerShard;
    ShardRoundTripBack(a, n);
    ShardRoundTripBack(b, n);
    var s, l := ShardOf(a, n), LocalOf(a, n);
    var t, l' := ShardOf(b, n), LocalOf(b, n);
    LiveFits(c, s, l);
    LiveFits(c, t, l');
    if s != t {
      ShardsApart(s, l, Pow2(order), t, l', Pow2(order'), n);
    } else {
      var w := c.shards[s];
      assert ShardOk(c.shards, n, s);
      LocalBlocksApart(w, l, l');
    }
  }

  lemma LocalBlocksApart(w: BS.World, l: nat, l': nat)
    requires BS.Valid(w.s, w.live) && l in w.live && l' in w.live && l != l'
    ensures Apart(l, Pow2(w.live[l]), l', Pow2(w.live[l']))
  {
    var b, b' := Block(l, w.live[l]), Block(l', w.live[l']);
    var all := BS.AllBlocks(w.s, w.live, {});
    assert b in all && b' in all;
    assert Disjoint(b, b');
  }

  lemma SlotHome(c: Chunk, slot: nat)
    requires Inv(c) && slot in c.small
    ensures var base := BaseSlot(SuperblockIndex(slot));
      InBuddy(c, base, SUPERBLOCK_ORDER) && IsHeldBase(c, base) && base <= slot < base + 64
  {
    assert SuperblockIndex(slot) in c.held;
    assert BaseSlot(SuperblockIndex(slot)) / 64 == SuperblockIndex(slot);
  }

  /** The block of a shard that an allocation lives in. */
  lemma Home(c: Chunk, a: Allocation) returns (base: nat, order: nat)
    requires Inv(c) && Owned(c, a)
    ensures InBuddy(c, base, order) && base <= a.slot && a.slot + Size(a) <= base + Pow2(order)
    ensures a.Large? ==> base == a.slot && order == a.order && !IsHeldBase(c, base)
    ensures a.Slot? ==> base == BaseSlot(SuperblockIndex(a.slot)) && IsHeldBase(c, base)
  {
    if a.Slot? {
      base, order := BaseSlot(SuperblockIndex(a.slot)), SUPERBLOCK_ORDER;
      SlotHome(c, a.slot);
      assert Pow2(6) == 64;
    } else {
      base, order := a.slot, a.order;
      LargeIsNotHeld(c, a.slot);
    }
  }

  /** No two allocations that clients hold at one time share a slot. */
  lemma LiveAllocationsAreDisjoint(c: Chunk, a: Allocation, b: Allocation)
    requires Inv(c) && Owned(c, a) && Owned(c, b) && a != b
    ensures Apart(a.slot, Size(a), b.slot, Size(b))
  {
    var base, order := Home(c, a);
    var base', order' := Home(c, b);
    if base != base' {
      BuddyBlocksApart(c, base, order, base', order');
    }
  }

  /** When a superblock is handed back nobody owns a slot of it, only one thread was told to hand
      it back, and its shard accepts it. */
  lemma ReturnsAreSound(c: Chunk, k: nat)
    requires Inv(c) && k in c.toReturn
    ensures c.toReturn[k] == 1
    ensures forall slot :: slot in c.small ==> SuperblockIndex(slot) != k
    ensures ShardFree(c, BaseSlot(k), SUPERBLOCK_ORDER).1 == BS.Freed
  {
    FreedSlot(c, BaseSlot(k), SUPERBLOCK_ORDER);
    forall slot | slot in c.small
      ensures SuperblockIndex(slot) != k
    {
      assert SuperblockOffset(slot) in FULL;
    }
  }

  /** A superblock whose owner is gone and whose slots are all free is on its way back. */
  lemma NoSuperblockIsStranded(c: Chunk, k: nat)
    requires Inv(c) && k in c.held && !c.superblocks[k].active
    requires forall slot :: slot in c.small ==> SuperblockIndex(slot) != k
    ensures k in c.toReturn
  {
    forall j: nat | j < 64
      ensures j in c.superblocks[k].mask
    {
      assert SuperblockIndex(FromSuperblockOffset(k, j)) == k;
    }
    assert c.superblocks[k].mask == FULL;
  }

  /** Over every run from a fresh chunk, live allocations are disjoint. */
  lemma EveryRunIsExclusive(c0: Chunk, steps: seq<Step>, c: Chunk, a: Allocation, b: Allocation)
    requires Fresh(c0) && Inv(c0) && Runs(c0, steps, c)
    requires Owned(c, a) && Owned(c, b) && a != b
    ensures Apart(a.slot, Size(a), b.slot, Size(b))
  {
    RunKeeps(c0, steps, c);
    LiveAllocationsAreDisjoint(c, a, b);
  }

  /** Over every run from a fresh chunk, a superblock goes back to its shard once per epoch, by one
      thread, with no slot in use, and as soon as it has neither owner nor slots in use. */
  lemma EveryEpochReturnsOnce(c0: Chunk, steps: seq<Step>, c: Chunk, k: nat)
    requires Fresh(c0) && Inv(c0) && Runs(c0, steps, c)
    ensures c.returned[k] <= c.taken[k] <= c.returned[k] + 1
    ensures k in c.held <==> c.taken[k] == c.returned[k] + 1
    ensures k in c.toReturn ==> c.toReturn[k] == 1 && k in c.held && forall slot :: slot in c.small ==> SuperblockIndex(slot) != k
    ensures k in c.held && k < |c.superblocks| && !c.superblocks[k].active && (forall slot :: slot in c.small ==> SuperblockIndex(slot) != k) ==>
      k in c.toReturn
  {
    RunKeeps(c0, steps, c);
    if k in c.toReturn {
      ReturnsAreSound(c, k);
    }
    if k in c.held && k < |c.superblocks| && !c.superblocks[k].active && forall slot :: slot in c.small ==> SuperblockIndex(slot) != k {
      NoSuperblockIsStranded(c, k);
    }
  }
}
