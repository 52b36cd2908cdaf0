/** What each step of the chunk does for the clients: what they own before and after, which blocks of which
    shard become live or free, and that nothing else changes. */
module ChunkEffects {
  import opened Dyadic
  import opened Prelude
  import BS = BuddySpec
  import SB = Superblock
  import opened ChunkSpec

  ghost function Lives(c: Chunk): seq<map<nat, nat>> {
    seq(|c.shards|, s requires 0 <= s < |c.shards| => c.shards[s].live)
  }

  /** A run of `2^order` slots of a shard that nobody has. */
  ghost predicate Free(c: Chunk, shard: nat, local: nat, order: nat) {
    shard < |c.shards| && order <= BS.MAX_ORDER && BS.FreeRun(c.shards[shard].live, c.slotsPerShard, Block(local, order))
  }

  ghost predicate NoneFree(c: Chunk, shard: nat, order: nat) {
    forall local: nat :: !Free(c, shard, local, order)
  }

  /** One more block of a shard is live. */
  ghost predicate BecomesLive(c: Chunk, c': Chunk, shard: nat, local: nat, order: nat) {
    shard < |c.shards| &&
    var live: map<nat, nat> := c.shards[shard].live[local := order];
    Lives(c') == Lives(c)[shard := live]
  }

  /** The block of a shard at `slot`, and no other, is live no longer. */
  ghost predicate BecomesFree(c: Chunk, c': Chunk, slot: nat) {
    c.slotsPerShard > 0 && ShardOf(slot, c.slotsPerShard) < |c.shards| &&
    var s, l := ShardOf(slot, c.slotsPerShard), LocalOf(slot, c.slotsPerShard);
    var live: map<nat, nat> := c.shards[s].live - {l};
    Lives(c') == Lives(c)[s := live]
  }

  /** No client has a slot of superblock `k`. */
  ghost predicate Unused(c: Chunk, k: nat) {
    forall slot :: slot in c.small ==> SuperblockIndex(slot) != k
  }

  /** Nothing changes that a client or a shard's owner could tell. */
  ghost predicate Refuses(c: Chunk, c': Chunk) {
    c' == c.(shards := c'.shards) && Lives(c') == Lives(c)
  }

  /** The client has a run of the order asked for, of the shard asked. */
  ghost predicate GetsLarge(c: Chunk, c': Chunk, shard: nat, order: nat, local: nat) {
    var g := FromShardLocal(shard, c.slotsPerShard, local);
    && Free(c, shard, local, order) && BecomesLive(c, c', shard, local, order)
    && g !in c.large && c' == c.(shards := c'.shards, large := c.large[g := order])
  }

  /** The 64 slots of superblock `k` come from the shard asked; the superblock has an owner and is unused. */
  ghost predicate Opens(c: Chunk, c': Chunk, shard: nat, k: nat, local: nat) {
    && Free(c, shard, local, SUPERBLOCK_ORDER) && BecomesLive(c, c', shard, local, SUPERBLOCK_ORDER)
    && BaseSlot(k) == FromShardLocal(shard, c.slotsPerShard, local) && k < |c.superblocks| && k !in c.held && Unused(c, k)
    && c' == c.(shards := c'.shards, superblocks := c.superblocks[k := SB.SbState(SB.FULL, true)],
                held := c.held + {k}, taken := c.taken + multiset{k})
  }

  ghost predicate GetsSmall(c: Chunk, c': Chunk, k: nat, j: nat) {
    var slot := FromSuperblockOffset(k, j);
    && k < |c.superblocks| && slot !in c.small && c' == c.(superblocks := c'.superblocks, small := c.small + {slot})
    && c'.superblocks == c.superblocks[k := SB.SbState(c.superblocks[k].mask - {j}, true)]
  }

  /** One thread is told to return superblock `k` exactly if nobody uses it and its owner is gone. */
  ghost predicate Told(c: Chunk, c': Chunk, k: nat) {
    && k < |c'.superblocks|
    && c'.toReturn == if Unused(c', k) && !c'.superblocks[k].active then c.toReturn + multiset{k} else c.toReturn
  }

  ghost predicate GivesSmall(c: Chunk, c': Chunk, slot: nat) {
    var k, j := SuperblockIndex(slot), SuperblockOffset(slot);
    && k < |c.superblocks| && c' == c.(superblocks := c'.superblocks, small := c.small - {slot}, toReturn := c'.toReturn)
    && c'.superblocks == c.superblocks[k := SB.SbState(c.superblocks[k].mask + {j}, c.superblocks[k].active)] && Told(c, c', k)
  }

  ghost predicate LosesOwner(c: Chunk, c': Chunk, k: nat) {
    && k < |c.superblocks| && c' == c.(superblocks := c'.superblocks, toReturn := c'.toReturn)
    && c'.superblocks == c.superblocks[k := SB.SbState(c.superblocks[k].mask, false)] && Told(c, c', k)
  }

  ghost predicate GoesBack(c: Chunk, c': Chunk, k: nat) {
    && BecomesFree(c, c', BaseSlot(k)) && Unused(c, k)
    && c' == c.(shards := c'.shards, held := c.held - {k}, toReturn := c.toReturn - multiset{k}, returned := c.returned + multiset{k})
  }

  ghost predicate GivesLarge(c: Chunk, c': Chunk, slot: nat) {
    BecomesFree(c, c', slot) && c' == c.(shards := c'.shards, large := c.large - {slot})
  }

  /** One byte of one shard's memory changes, and none of the bookkeeping outside it. */
  ghost predicate Writes(c: Chunk, c': Chunk, shard: nat, local: nat, value: nat) {
    && Refuses(c, c') && |c'.shards| == |c.shards| && shard < |c.shards|
    && (forall t :: 0 <= t < |c.shards| && t != shard ==> c'.shards[t] == c.shards[t])
    && Stored(c.shards[shard].s, c'.shards[shard].s, local, value)
  }

  ghost predicate Stored(s: BS.Buddy, s': BS.Buddy, slot: nat, value: nat) {
    && s' == s.(orderByte := s'.orderByte) && |s'.orderByte| == |s.orderByte|
    && forall i :: 0 <= i < |s.orderByte| ==> s'.orderByte[i] == if i == slot then value else s.orderByte[i]
  }

  ghost predicate Effect(c: Chunk, step: Step, c': Chunk) {
    match step
    case AllocLarge(shard, order) =>
      if NoneFree(c, shard, order) then Refuses(c, c') else exists local: nat :: GetsLarge(c, c', shard, order, local)
    case OpenSuperblock(shard) =>
      if NoneFree(c, shard, SUPERBLOCK_ORDER) then Refuses(c, c') else exists k: nat, local: nat :: Opens(c, c', shard, k, local)
    case AllocOne(k, j) => GetsSmall(c, c', k, j)
    case FreeSmall(slot) => GivesSmall(c, c', slot)
    case Retire(k) => LosesOwner(c, c', k)
    case ReturnSuperblock(k) => GoesBack(c, c', k)
    case FreeLarge(slot) => GivesLarge(c, c', slot)
    case ClientWrite(shard, _, local, value) => Writes(c, c', shard, local, value)
  }

  // ---------------------------------------------------------------------------------------
  // Every step has its effect
  // ---------------------------------------------------------------------------------------

  /** A shard hands out a block exactly if it has a free run, and the block is one. */
  lemma ShardHandsOut(c: Chunk, shard: nat, order: nat)
    requires Inv(c) && shard < |c.shards|
    ensures var (c', r) := ShardAlloc(c, shard, order);
      && c' == c.(shards := c'.shards) && (r.None? <==> NoneFree(c, shard, order))
      && (r.None? ==> Lives(c') == Lives(c))
      && (r.Some? ==> exists local: nat ::
            && r.value == FromShardLocal(shard, c.slotsPerShard, local) && Free(c, shard, local, order)
            && BecomesLive(c, c', shard, local, order))
  {
    FreshSlotInRange(c, shard, order);
    assert ShardOk(c.shards, c.slotsPerShard, shard);
    var w := c.shards[shard];
    BS.AllocIsComplete(w.s, w.live, order);
    BS.AllocKeeps(w.s, w.live, order);
    var (c', r) := ShardAlloc(c, shard, order);
    if r.Some? {
      var local := BS.Alloc(w.s, order).1.value;
      assert Free(c, shard, local, order);
      assert BecomesLive(c, c', shard, local, order);
    }
  }

  lemma AllocLargeEffect(c: Chunk, shard: nat, order: nat)
    requires Inv(c) && Enabled(c, AllocLarge(shard, order))
    ensures Effect(c, AllocLarge(shard, order), DoAllocLarge(c, shard, order))
  {
    ShardHandsOut(c, shard, order);
    FreshSlotInRange(c, shard, order);
    var (c1, r) := ShardAlloc(c, shard, order);
    var c' := DoAllocLarge(c, shard, order);
    if r.Some? {
      var local: nat :| r.value == FromShardLocal(shard, c.slotsPerShard, local) && Free(c, shard, local, order)
        && BecomesLive(c, c1, shard, local, order);
      NewSlotUntagged(c, c', r.value, order);
      assert Lives(c') == Lives(c1);
      assert GetsLarge(c, c', shard, order, local);
    }
  }

  lemma OpenEffect(c: Chunk, shard: nat)
    requires Inv(c) && Enabled(c, OpenSuperblock(shard))
    ensures Effect(c, OpenSuperblock(shard), DoOpen(c, shard))
  {
    ShardHandsOut(c, shard, SUPERBLOCK_ORDER);
    FreshSlotInRange(c, shard, SUPERBLOCK_ORDER);
    var (c1, r) := ShardAlloc(c, shard, SUPERBLOCK_ORDER);
    var c' := DoOpen(c, shard);
    if r.Some? {
      var local: nat :| r.value == FromShardLocal(shard, c.slotsPerShard, local) && Free(c, shard, local, SUPERBLOCK_ORDER)
        && BecomesLive(c, c1, shard, local, SUPERBLOCK_ORDER);
      var k := SuperblockIndex(r.value);
      assert BaseSlot(k) == r.value;
      NewSlotUntagged(c, c', r.value, SUPERBLOCK_ORDER);
      assert Lives(c') == Lives(c1);
      assert Opens(c, c', shard, k, local);
    }
  }

  /** The mask of a superblock in use is full exactly if no client has a slot of it. */
  lemma FullIsUnused(c: Chunk, k: nat)
    requires Inv(c) && k in c.held
    ensures k < |c.superblocks| && (c.superblocks[k].mask == SB.FULL <==> Unused(c, k))
  {
    if c.superblocks[k].mask == SB.FULL {
      forall slot | slot in c.small
        ensures SuperblockIndex(slot) != k
      {
        assert SuperblockOffset(slot) in SB.FULL;
      }
    } else if Unused(c, k) {
      forall j | j in SB.FULL
        ensures j in c.superblocks[k].mask
      {
        assert SuperblockIndex(FromSuperblockOffset(k, j)) == k;
      }
    }
  }

  lemma FreeSmallEffect(c: Chunk, slot: nat)
    requires Inv(c) && Enabled(c, FreeSmall(slot))
    ensures GivesSmall(c, DoFreeSmall(c, slot), slot)
  {
    FreeSmallKeeps(c, slot);
    FullIsUnused(DoFreeSmall(c, slot), SuperblockIndex(slot));
  }

  lemma RetireEffect(c: Chunk, k: nat)
    requires Inv(c) && Enabled(c, Retire(k))
    ensures LosesOwner(c, DoRetire(c, k), k)
  {
    RetireKeeps(c, k);
    FullIsUnused(DoRetire(c, k), k);
  }

  lemma ReturnEffect(c: Chunk, k: nat)
    requires Inv(c) && Enabled(c, ReturnSuperblock(k))
    ensures GoesBack(c, DoReturn(c, k), k)
  {
    FreedSlot(c, BaseSlot(k), SUPERBLOCK_ORDER);
    FullIsUnused(c, k);
  }

  lemma FreeLargeEffect(c: Chunk, slot: nat)
    requires Inv(c) && Enabled(c, FreeLarge(slot))
    ensures GivesLarge(c, DoFreeLarge(c, slot), slot)
  {
    FreedSlot(c, slot, c.large[slot]);
  }

  lemma WriteEffect(c: Chunk, shard: nat, owned: nat, local: nat, value: nat)
    requires Inv(c) && Enabled(c, ClientWrite(shard, owned, local, value))
    ensures Writes(c, DoWrite(c, shard, owned, local, value), shard, local, value)
  {
    assert ShardOk(c.shards, c.slotsPerShard, shard);
    LiveFits(c, shard, owned);
  }

  /** Every step does for the clients exactly what its name says. */
  lemma StepHasEffect(c: Chunk, step: Step)
    requires Inv(c) && Enabled(c, step)
    ensures Effect(c, step, Do(c, step))
  {
    match step
    case AllocLarge(shard, order) => AllocLargeEffect(c, shard, order);
    case OpenSuperblock(shard) => OpenEffect(c, shard);
    case AllocOne(k, j) => AllocOneKeeps(c, k, j);
    case FreeSmall(slot) => FreeSmallEffect(c, slot);
    case Retire(k) => RetireEffect(c, k);
    case ReturnSuperblock(k) => ReturnEffect(c, k);
    case FreeLarge(slot) => FreeLargeEffect(c, slot);
    case ClientWrite(shard, owned, local, value) => WriteEffect(c, shard, owned, local, value);
  }

  // ---------------------------------------------------------------------------------------
  // Whole runs
  // ---------------------------------------------------------------------------------------

  /** The step by which an allocation is given up. */
  function FreeOf(a: Allocation): Step {
    match a
    case Slot(slot) => FreeSmall(slot)
    case Large(slot, _) => FreeLarge(slot)
  }

  lemma EffectKeepsOwned(c: Chunk, step: Step, c': Chunk, a: Allocation)
    requires Effect(c, step, c') && Owned(c, a) && step != FreeOf(a)
    ensures Owned(c', a)
  {
    match step {
      case AllocLarge(shard, order) =>
        if !NoneFree(c, shard, order) {
          var local: nat :| GetsLarge(c, c', shard, order, local);
        }
      case OpenSuperblock(shard) =>
        if !NoneFree(c, shard, SUPERBLOCK_ORDER) {
          var k: nat, local: nat :| Opens(c, c', shard, k, local);
        }
      case AllocOne(k, j) => assert GetsSmall(c, c', k, j);
      case FreeSmall(slot) => assert GivesSmall(c, c', slot);
      case Retire(k) => assert LosesOwner(c, c', k);
      case ReturnSuperblock(k) => assert GoesBack(c, c', k);
      case FreeLarge(slot) => assert GivesLarge(c, c', slot);
      case ClientWrite(shard, _, local, value) => assert Writes(c, c', shard, local, value);
    }
  }

  /** What a client owns it owns, at the size it asked for, until it frees it, whatever the others do. */
  lemma {:induction false} OwnedUntilFreed(c: Chunk, steps: seq<Step>, c': Chunk, a: Allocation)
    requires Inv(c) && Runs(c, steps, c') && Owned(c, a) && FreeOf(a) !in steps
    ensures Owned(c', a)
    decreases |steps|
  {
    if steps != [] {
      StepKeeps(c, steps[0]);
      StepHasEffect(c, steps[0]);
      EffectKeepsOwned(c, steps[0], Do(c, steps[0]), a);
      OwnedUntilFreed(Do(c, steps[0]), steps[1..], c', a);
    }
  }

  lemma LiveUndone(lives: seq<map<nat, nat>>, shard: nat, local: nat, order: nat, more: map<nat, nat>, less: map<nat, nat>)
    requires shard < |lives| && local !in lives[shard] && more == lives[shard][local := order] && less == more - {local}
    ensures lives[shard := more][shard := less] == lives
  {
    assert less == lives[shard];
  }

  lemma FreeIsNotLive(c: Chunk, shard: nat, local: nat, order: nat)
    requires Free(c, shard, local, order)
    ensures local !in c.shards[shard].live
  {
    var live := c.shards[shard].live;
    assert local in live ==> Block(local, live[local]) in BS.LiveBlocks(live);
  }

  lemma EffectsCancel(c: Chunk, shard: nat, order: nat, local: nat, c1: Chunk, c2: Chunk, g: nat)
    requires c.slotsPerShard > 0 && shard < |c.shards| && local < c.slotsPerShard && g == FromShardLocal(shard, c.slotsPerShard, local)
    requires GetsLarge(c, c1, shard, order, local) && ShardOf(g, c.slotsPerShard) < |c1.shards|
    requires BecomesFree(c1, c2, g) && c2 == c1.(shards := c2.shards, large := c1.large - {g})
    ensures c2 == c.(shards := c2.shards) && Lives(c2) == Lives(c)
  {
    assert Lives(c1)[shard] == c1.shards[shard].live;
    ShardRoundTrip(shard, c.slotsPerShard, local);
    FreeIsNotLive(c, shard, local, order);
    LiveUndone(Lives(c), shard, local, order, c1.shards[shard].live, c1.shards[shard].live - {local});
    assert c.large[g := order] - {g} == c.large;
  }

  lemma GetsFits(c: Chunk, shard: nat, order: nat, local: nat, c1: Chunk)
    requires Inv(c1) && shard < |c.shards| && GetsLarge(c, c1, shard, order, local)
    ensures shard < |c1.shards| && local < c.slotsPerShard
  {
    assert |Lives(c1)| == |c1.shards| && Lives(c1)[shard] == c1.shards[shard].live;
    LiveFits(c1, shard, local);
  }

  /** Freeing a block takes back all that allocating it did for anyone. */
  lemma FreeUndoesAlloc(c: Chunk, shard: nat, order: nat, local: nat, c1: Chunk, g: nat)
    requires Inv(c) && Enabled(c, AllocLarge(shard, order)) && c1 == Do(c, AllocLarge(shard, order))
    requires GetsLarge(c, c1, shard, order, local) && g == FromShardLocal(shard, c.slotsPerShard, local)
    ensures Inv(c1) && Enabled(c1, FreeLarge(g))
    ensures var c2 := Do(c1, FreeLarge(g)); c2 == c.(shards := c2.shards) && Lives(c2) == Lives(c)
  {
    StepKeeps(c, AllocLarge(shard, order));
    StepHasEffect(c1, FreeLarge(g));
    GetsFits(c, shard, order, local, c1);
    ShardRoundTrip(shard, c.slotsPerShard, local);
    EffectsCancel(c, shard, order, local, c1, Do(c1, FreeLarge(g)), g);
  }
}
