/** When the slots a superblock hands out collide with another allocation because shard sizes are not
    multiples of the superblock size. */
module ShardLayout {
  import opened Bits
  import opened Dyadic
  import opened Prelude
  import opened BuddySpec
  import opened BuddyAllocation
  import FM = FreeListMemory
  import opened ChunkSpec
  import opened ShardProbe

  /** A block that a shard of `n` slots can have live. */
  predicate BlockIn(n: nat, local: nat, order: nat) {
    Aligned(Block(local, order)) && local + Pow2(order) <= n
  }

  /** Two blocks that can be live at the same time. */
  predicate Different(shard: nat, local: nat, order: nat, shard': nat, local': nat, order': nat) {
    shard != shard' || Disjoint(Block(local, order), Block(local', order'))
  }

  /** The first slot handed out by the superblock that a block of a shard is opened as. */
  function HandedOut(n: nat, shard: nat, local: nat): nat {
    BaseSlot(SuperblockIndex(FromShardLocal(shard, n, local)))
  }

  /** The superblock opened on a block of one shard hands out no slot of another block that is live. (Large
      allocations have order 1 at least.) */
  ghost predicate NoCollision(count: nat, n: nat, shard: nat, local: nat, shard': nat, local': nat, order: nat) {
    && shard < count && shard' < count && order >= 1
    && BlockIn(n, local, SUPERBLOCK_ORDER) && BlockIn(n, local', order)
    && Different(shard, local, SUPERBLOCK_ORDER, shard', local', order)
    ==> Apart(HandedOut(n, shard, local), 64, FromShardLocal(shard', n, local'), Pow2(order))
  }

  ghost predicate Exclusive(count: nat, n: nat) {
    forall shard: nat, local: nat, shard': nat, local': nat, order: nat
      {:trigger NoCollision(count, n, shard, local, shard', local', order)} ::
      NoCollision(count, n, shard, local, shard', local', order)
  }

  lemma SuperblockStart(n: nat, local: nat)
    requires BlockIn(n, local, SUPERBLOCK_ORDER)
    ensures local % 64 == 0 && local + 64 <= n
  {
    assert Pow2(6) == 64;
    AlignedIsMultiple(local, 6);
  }

  lemma EvenBlock(n: nat, local: nat, order: nat)
    requires BlockIn(n, local, order) && order >= 1
    ensures local % 2 == 0 && Pow2(order) % 2 == 0 && Pow2(order) >= 2
  {
    var half, size := Pow2(order - 1), Pow2(order);
    AlignedIsMultiple(local, order);
    assert size == 2 * half;
    HalfMod(local, half);
  }

  lemma OrderOneBlock(n: nat, local: nat)
    requires local % 2 == 0 && local + 2 <= n
    ensures BlockIn(n, local, 1) && Pow2(1) == 2
  {
    assert Pow2(1) == 2;
    AlignedIsMultiple(local, 1);
  }

  lemma OrderSixBlock(n: nat, local: nat)
    requires local % 64 == 0 && local + 64 <= n
    ensures BlockIn(n, local, SUPERBLOCK_ORDER) && Pow2(6) == 64
  {
    assert Pow2(6) == 64;
    AlignedIsMultiple(local, 6);
  }

  /** Where the superblock is the block itself, different blocks stay different. */
  lemma ExactIsExclusive(count: nat, n: nat)
    requires count == 1 || n % 64 == 0
    ensures Exclusive(count, n)
  {
    forall shard: nat, local: nat, shard': nat, local': nat, order: nat
      ensures NoCollision(count, n, shard, local, shard', local', order)
    {
      if shard < count && shard' < count && BlockIn(n, local, SUPERBLOCK_ORDER) && BlockIn(n, local', order) {
        assert Pow2(6) == 64;
        SuperblockStart(n, local);
        if n % 64 == 0 {
          MultipleOf64(shard, n, local);
        }
        assert HandedOut(n, shard, local) == FromShardLocal(shard, n, local);
        if shard != shard' {
          ShardsApart(shard, local, 64, shard', local', Pow2(order), n);
        }
      }
    }
  }

  /** Two shards of 65 slots: the one slot handed out too many is in no block of order 1 or more. */
  lemma TwoShardsOf65()
    ensures Exclusive(2, 65)
  {
    forall shard: nat, local: nat, shard': nat, local': nat, order: nat
      ensures NoCollision(2, 65, shard, local, shard', local', order)
    {
      if shard < 2 && shard' < 2 && order >= 1 && BlockIn(65, local, SUPERBLOCK_ORDER) && BlockIn(65, local', order)
        && Different(shard, local, SUPERBLOCK_ORDER, shard', local', order) {
        BlocksOf65(shard, local, shard', local', order);
      }
    }
  }

  lemma BlocksOf65(shard: nat, local: nat, shard': nat, local': nat, order: nat)
    requires shard < 2 && shard' < 2 && order >= 1
    requires BlockIn(65, local, SUPERBLOCK_ORDER) && BlockIn(65, local', order)
    requires Different(shard, local, SUPERBLOCK_ORDER, shard', local', order)
    ensures Apart(HandedOut(65, shard, local), 64, FromShardLocal(shard', 65, local'), Pow2(order))
  {
    SuperblockStart(65, local);
    EvenBlock(65, local', order);
    FitIn65(local', Pow2(order));
    assert shard != shard' by {
      assert Pow2(SUPERBLOCK_ORDER) == 64;
    }
    RangesOf65(shard, shard', local', Pow2(order));
  }

  lemma FitIn65(local: nat, size: nat)
    requires local % 2 == 0 && size % 2 == 0 && local + size <= 65
    ensures local + size <= 64
  {
  }

  lemma RangesOf65(shard: nat, shard': nat, local': nat, size: nat)
    requires shard < 2 && shard' < 2 && shard != shard' && local' + size <= 64
    ensures Apart(HandedOut(65, shard, 0), 64, FromShardLocal(shard', 65, local'), size)
  {
    if shard == 0 {
      assert shard' == 1;
    } else {
      assert shard == 1 && shard' == 0;
    }
  }

  lemma Collide(count: nat, n: nat, shard: nat, local: nat, shard': nat, local': nat)
    requires shard < count && shard' < count && local % 64 == 0 && local + 64 <= n && local' % 2 == 0 && local' + 2 <= n
    requires shard != shard' || local' + 2 <= local || local + 64 <= local'
    requires !Apart(HandedOut(n, shard, local), 64, FromShardLocal(shard', n, local'), 2)
    ensures !Exclusive(count, n)
  {
    OrderSixBlock(n, local);
    OrderOneBlock(n, local');
    assert !NoCollision(count, n, shard, local, shard', local', 1);
  }

  /** For every number of shards and every shard size: the superblocks of a chunk hand out only slots that are
      in no other live block if and only if there is one shard, or shards are too small for superblocks,
      or the shard size is a multiple of 64, or there are two shards of 65 slots. */
  lemma ExclusiveIff(count: nat, n: nat)
    requires count >= 1 && n >= 1
    ensures Exclusive(count, n) <==> count == 1 || n < 64 || n % 64 == 0 || (count == 2 && n == 65)
  {
    if count == 1 || n % 64 == 0 {
      ExactIsExclusive(count, n);
    } else if n < 64 {
      TooSmall(count, n);
    } else if n >= 128 {
      assert FromShardLocal(1, n, 64) == n + 64 && FromShardLocal(1, n, 62) == n + 62;
      Collide(count, n, 1, 64, 1, 62);
    } else if n > 65 {
      assert FromShardLocal(1, n, 0) == n && FromShardLocal(0, n, 64) == 64;
      Collide(count, n, 1, 0, 0, 64);
    } else if count >= 3 {
      assert FromShardLocal(2, 65, 0) == 130 && FromShardLocal(1, 65, 62) == 127;
      Collide(count, n, 2, 0, 1, 62);
    } else {
      TwoShardsOf65();
    }
  }

  lemma TooSmall(count: nat, n: nat)
    requires n < 64
    ensures Exclusive(count, n)
  {
    assert Pow2(6) == 64;
  }

  // ---------------------------------------------------------------------------------------
  // A run
  // ---------------------------------------------------------------------------------------

  /** The only place for a block in an arena where everything else is ruled out. */
  lemma OnlyPlace(live: map<nat, nat>, x: nat)
    requires FreeRun(live, 100, Block(x, 6)) || (0 in live && live[0] == 6 && FreeRun(live, 100, Block(x, 5)))
    ensures FreeRun(live, 100, Block(x, 6)) ==> x == 0
    ensures 0 in live && live[0] == 6 && FreeRun(live, 100, Block(x, 5)) ==> x == 64
  {
    assert Pow2(6) == 64 && Pow2(5) == 32;
    AlignedIsMultiple(x, 6);
    AlignedIsMultiple(x, 5);
    assert 0 in live && live[0] == 6 ==> Block(0, 6) in LiveBlocks(live);
  }

  lemma PlaceForSix()
    ensures FreeRun(map[], 100, Block(0, 6))
  {
    assert Pow2(6) == 64;
    AlignedIsMultiple(0, 6);
  }

  lemma PlaceForFive()
    ensures FreeRun(map[0 := 6], 100, Block(64, 5))
  {
    assert Pow2(6) == 64 && Pow2(5) == 32;
    AlignedIsMultiple(64, 5);
  }

  /** The first shard, with slots 64 to 95 allocated. */
  method FirstShard(contents: nat -> FM.Cell) returns (a: BuddyAllocator)
    ensures fresh(a) && a.Ready() && a.totalSlots == 100 && a.live == map[0 := 6, 64 := 5]
  {
    a := new BuddyAllocator(100, contents);
    PlaceForSix();
    var r := AllocateIn(a, 6);
    OnlyPlace(map[], r.value);
    PlaceForFive();
    var l := AllocateIn(a, 5);
    OnlyPlace(map[0 := 6], l.value);
  }

  /** The second shard, with a block for a superblock. */
  method SecondShard(contents: nat -> FM.Cell) returns (b: BuddyAllocator)
    ensures fresh(b) && b.Ready() && b.totalSlots == 100 && b.live == map[0 := SUPERBLOCK_ORDER]
  {
    b := new BuddyAllocator(100, contents);
    PlaceForSix();
    var r := AllocateIn(b, 6);
    OnlyPlace(map[], r.value);
  }

  /** Two neighbouring shards of 100 slots, as the layout gives for 1600 slots: with slots 64 to 95 of the first
      one allocated, the superblock opened in the second hands out slots 64 to 127. */
  method MisalignedShardsCollide(contents: nat -> FM.Cell) returns (a: BuddyAllocator, b: BuddyAllocator)
    ensures a.Ready() && b.Ready() && a.totalSlots == 100 && b.totalSlots == 100
    ensures 64 in a.live && a.live[64] == 5 && 0 in b.live && b.live[0] == SUPERBLOCK_ORDER
    ensures !Apart(HandedOut(100, 1, 0), 64, FromShardLocal(0, 100, 64), Pow2(5))
  {
    a := FirstShard(contents);
    b := SecondShard(contents);
    HandedOutTwice();
  }

  lemma HandedOutTwice()
    ensures !Apart(HandedOut(100, 1, 0), 64, FromShardLocal(0, 100, 64), Pow2(5))
  {
    assert Pow2(5) == 32;
  }
}
