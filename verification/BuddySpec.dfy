/** The buddy allocator on values: what `alloc` and `dealloc` do to the free lists, the order
    bitmap, the heads-only allocation bits and the order bytes kept inside free memory, and
    the laws they keep. */
module BuddySpec {
  import opened Bits
  import opened Dyadic
  import opened Prelude

  const MAX_ORDER: nat := 18

  /** One allocator's bookkeeping. `lists[o]` is free list `o`, front first; `bitmap` is the
      set of one bits of the order word; `heads[i]` is set for the first slot of
      each allocated block; `orderByte[i]` is the byte at slot `i` where a free
      block keeps its order and which belongs to the client while the slot is allocated. */
  datatype Buddy = Buddy(
    total: nat,
    lists: seq<seq<nat>>,
    bitmap: set<nat>,
    heads: seq<bool>,
    orderByte: seq<nat>
  )

  datatype FreeResult = Freed | InvalidFree | DoubleFree

  predicate Shaped(s: Buddy) {
    |s.lists| == MAX_ORDER + 1 && |s.heads| == s.total && |s.orderByte| == s.total
  }

  // ---------------------------------------------------------------------------------------
  // Operations
  // ---------------------------------------------------------------------------------------

  function AddFree(s: Buddy, index: nat, order: nat): (r: Buddy)
    requires Shaped(s) && index < s.total && order <= MAX_ORDER
    ensures Shaped(r)
  {
    s.(lists := s.lists[order := [index] + s.lists[order]],
       bitmap := s.bitmap + {order},
       orderByte := s.orderByte[index := order])
  }

  function RemoveFree(s: Buddy, index: nat, order: nat): (r: Buddy)
    requires Shaped(s) && order <= MAX_ORDER
    ensures Shaped(r)
  {
    var rest := Without(s.lists[order], index);
    s.(lists := s.lists[order := rest], bitmap := if rest == [] then s.bitmap - {order} else s.bitmap)
  }

  /** Hand back the upper halves of a block of order `curr` until order `order` is left. */
  function Split(s: Buddy, index: nat, curr: nat, order: nat): (r: Buddy)
    requires Shaped(s) && order <= curr <= MAX_ORDER + 1 && index + Pow2(curr) <= s.total
    ensures Shaped(r) && r.total == s.total
    decreases curr
  {
    if curr > order then
      Split(AddFree(s, index + Pow2(curr - 1), curr - 1), index, curr - 1, order)
    else s
  }

  /** The lowest set bit of the order word at or above `order`. */
  function LowestFrom(bitmap: set<nat>, order: nat): (r: Option<nat>)
    ensures r.Some? ==> order <= r.value <= MAX_ORDER && r.value in bitmap
    ensures r.Some? ==> forall o :: order <= o < r.value ==> o !in bitmap
    ensures r.None? ==> forall o :: order <= o <= MAX_ORDER ==> o !in bitmap
    decreases MAX_ORDER + 1 - order
  {
    if order > MAX_ORDER then None
    else if order in bitmap then Some(order)
    else LowestFrom(bitmap, order + 1)
  }

  /** What the code needs of the lists to pop and split without leaving the arena. */
  ghost predicate Poppable(s: Buddy) {
    && Shaped(s)
    && (forall o :: 0 <= o <= MAX_ORDER ==> (o in s.bitmap <==> s.lists[o] != []))
    && (forall o, i :: 0 <= o <= MAX_ORDER && 0 <= i < |s.lists[o]| ==> s.lists[o][i] + Pow2(o) <= s.total)
  }

  ghost function Alloc(s: Buddy, order: nat): (r: (Buddy, Option<nat>))
    requires Poppable(s)
    ensures Shaped(r.0)
  {
    var found := LowestFrom(s.bitmap, order);
    if found.None? then (s, None)
    else
      var index := s.lists[found.value][0];
      var s1 := Split(RemoveFree(s, index, found.value), index, found.value, order);
      (s1.(heads := s1.heads[index := true]), Some(index))
  }

  /** Coalesce upwards from a block in hand, then put the result on its free list. */
  function Merge(s: Buddy, index: nat, order: nat): (r: Buddy)
    requires Shaped(s) && index < s.total && order <= MAX_ORDER
    ensures Shaped(r)
    decreases MAX_ORDER - order
  {
    var buddy := Xor(index, Pow2(order));
    if order >= MAX_ORDER || buddy >= s.total || s.heads[buddy] || s.orderByte[buddy] != order then
      AddFree(s, index, order)
    else
      Merge(RemoveFree(s, buddy, order), if buddy < index then buddy else index, order + 1)
  }

  function Dealloc(s: Buddy, index: nat, order: nat): (r: (Buddy, FreeResult))
    requires Shaped(s) && (index < s.total && s.heads[index] ==> order <= MAX_ORDER)
    ensures Shaped(r.0)
  {
    if index >= s.total then (s, InvalidFree)
    else if !s.heads[index] then (s, DoubleFree)
    else (Merge(s.(heads := s.heads[index := false]), index, order), Freed)
  }

  /** `o` is the order the decomposition picks for `n` slots. */
  predicate Fits(n: nat, o: nat) {
    o <= MAX_ORDER && Pow2(o) <= n && (o < MAX_ORDER ==> n - Pow2(o) < Pow2(o))
  }

  /** The order of the largest block that fits in `n` slots, capped at the largest order. */
  function FittingOrder(n: nat): (r: nat)
    requires n >= 1
    ensures Fits(n, r)
  {
    Pow2Mono(if Log2(n) < MAX_ORDER then Log2(n) else MAX_ORDER, Log2(n));
    if Log2(n) < MAX_ORDER then Log2(n) else MAX_ORDER
  }

  // ---------------------------------------------------------------------------------------
  // Meaning
  // ---------------------------------------------------------------------------------------

  /** The free blocks the lists stand for. */
  ghost function FreeBlocks(lists: seq<seq<nat>>): (r: set<Block>)
    ensures forall b :: b in r <==> b.order < |lists| && b.start in lists[b.order]
  {
    set o, i | 0 <= o < |lists| && 0 <= i < |lists[o]| :: Block(lists[o][i], o)
  }

  /** The blocks the clients own: `live` maps each one's first slot to its order. */
  ghost function LiveBlocks(live: map<nat, nat>): (r: set<Block>)
    ensures forall b :: b in r <==> b.start in live && live[b.start] == b.order
  {
    set i | i in live :: Block(i, live[i])
  }

  /** No block below the largest order is free together with its buddy. */
  ghost predicate Coalesced(free: set<Block>) {
    forall b {:trigger BuddyOf(b)} :: b in free && b.order < MAX_ORDER ==> BuddyOf(b) !in free
  }

  ghost predicate ListsOk(s: Buddy) {
    && Shaped(s)
    && (forall o :: 0 <= o <= MAX_ORDER ==> NoDup(s.lists[o]))
    && (forall o :: 0 <= o <= MAX_ORDER ==> (o in s.bitmap <==> s.lists[o] != []))
  }

  ghost predicate BytesOk(s: Buddy, live: map<nat, nat>)
    requires Shaped(s)
  {
    && (forall i :: 0 <= i < s.total ==> (s.heads[i] <==> i in live))
    && (forall b :: b in FreeBlocks(s.lists) ==> b.start < s.total && s.orderByte[b.start] == b.order)
  }

  /** The blocks in play: free, live, and the ones an operation holds between two lists. */
  ghost function AllBlocks(s: Buddy, live: map<nat, nat>, held: set<Block>): set<Block> {
    FreeBlocks(s.lists) + LiveBlocks(live) + held
  }

  /** The allocator's invariant while an operation holds the blocks `held`. */
  ghost predicate Mid(s: Buddy, live: map<nat, nat>, held: set<Block>) {
    && ListsOk(s)
    && BytesOk(s, live)
    && Tiling(AllBlocks(s, live, held), s.total, MAX_ORDER)
    && FreeBlocks(s.lists) !! LiveBlocks(live)
    && held !! (FreeBlocks(s.lists) + LiveBlocks(live))
    && Coalesced(FreeBlocks(s.lists))
  }

  /** The invariant between operations. */
  ghost predicate Valid(s: Buddy, live: map<nat, nat>) {
    Mid(s, live, {})
  }

  // ---------------------------------------------------------------------------------------
  // List updates
  // ---------------------------------------------------------------------------------------

  lemma AddFreeBlocks(s: Buddy, index: nat, order: nat)
    requires ListsOk(s) && index < s.total && order <= MAX_ORDER
    requires Block(index, order) !in FreeBlocks(s.lists)
    ensures ListsOk(AddFree(s, index, order))
    ensures FreeBlocks(AddFree(s, index, order).lists) == FreeBlocks(s.lists) + {Block(index, order)}
  {
    NoDupCons(index, s.lists[order]);
  }

  lemma RemoveFreeBlocks(s: Buddy, index: nat, order: nat)
    requires ListsOk(s) && order <= MAX_ORDER
    ensures ListsOk(RemoveFree(s, index, order))
    ensures FreeBlocks(RemoveFree(s, index, order).lists) == FreeBlocks(s.lists) - {Block(index, order)}
  {
    WithoutContents(s.lists[order], index);
  }

  lemma MidIsPoppable(s: Buddy, live: map<nat, nat>, held: set<Block>)
    requires Mid(s, live, held)
    ensures Poppable(s)
  {
    forall o, i | 0 <= o <= MAX_ORDER && 0 <= i < |s.lists[o]|
      ensures s.lists[o][i] + Pow2(o) <= s.total
    {
      assert Block(s.lists[o][i], o) in AllBlocks(s, live, held);
    }
  }

  // ---------------------------------------------------------------------------------------
  // Steps between "held" and "free"
  // ---------------------------------------------------------------------------------------

  lemma AddKeepsCoalesced(free: set<Block>, b: Block)
    requires Coalesced(free) && Aligned(b) && (forall c :: c in free ==> Aligned(c))
    requires b.order < MAX_ORDER ==> BuddyOf(b) !in free
    ensures Coalesced(free + {b})
  {
    forall c | c in free + {b} && c.order < MAX_ORDER
      ensures BuddyOf(c) !in free + {b}
    {
      Halves(c);
    }
  }

  /** Putting a held block on its list, when its buddy is not free. */
  lemma Release(s: Buddy, live: map<nat, nat>, held: set<Block>, b: Block, held': set<Block>)
    requires Mid(s, live, held) && b in held && held' == held - {b}
    requires b.order < MAX_ORDER ==> BuddyOf(b) !in FreeBlocks(s.lists)
    ensures b.start < s.total && b.order <= MAX_ORDER
    ensures Mid(AddFree(s, b.start, b.order), live, held')
  {
    assert b in AllBlocks(s, live, held);
    AddFreeBlocks(s, b.start, b.order);
    var s' := AddFree(s, b.start, b.order);
    assert AllBlocks(s', live, held') == AllBlocks(s, live, held);
    forall c | c in FreeBlocks(s'.lists)
      ensures c.start < s'.total && s'.orderByte[c.start] == c.order
    {
      if c != b {
        assert c in AllBlocks(s, live, held);
        assert Disjoint(b, c);
      }
    }
    forall c | c in FreeBlocks(s.lists)
      ensures Aligned(c)
    {
      assert c in AllBlocks(s, live, held);
    }
    AddKeepsCoalesced(FreeBlocks(s.lists), b);
  }

  /** Taking a free block off its list. */
  lemma Acquire(s: Buddy, live: map<nat, nat>, held: set<Block>, b: Block)
    requires Mid(s, live, held) && b in FreeBlocks(s.lists)
    ensures b.order <= MAX_ORDER
    ensures Mid(RemoveFree(s, b.start, b.order), live, held + {b})
  {
    RemoveFreeBlocks(s, b.start, b.order);
    var s' := RemoveFree(s, b.start, b.order);
    assert AllBlocks(s', live, held + {b}) == AllBlocks(s, live, held);
  }

  /** A part of the held block is not free or live. */
  lemma PartIsNeither(s: Buddy, live: map<nat, nat>, p: Block, part: Block)
    requires Mid(s, live, {p}) && p.start <= part.start < End(p)
    ensures part !in FreeBlocks(s.lists) && part !in LiveBlocks(live)
  {
    var all := AllBlocks(s, live, {p});
    assert p in all;
    forall c | c in FreeBlocks(s.lists) + LiveBlocks(live)
      ensures c != part
    {
      assert c in all && Disjoint(c, p);
    }
  }

  lemma HeldReplaced(s: Buddy, live: map<nat, nat>, p: Block, lo: Block, hi: Block)
    requires p !in FreeBlocks(s.lists) + LiveBlocks(live)
    ensures AllBlocks(s, live, {lo, hi}) == AllBlocks(s, live, {p}) - {p} + {lo, hi}
  {
  }

  /** Cutting the one held block in two. */
  lemma CutHeld(s: Buddy, live: map<nat, nat>, p: Block)
    requires Mid(s, live, {p}) && p.order > 0
    ensures Mid(s, live, {Block(p.start, p.order - 1), Block(p.start + Pow2(p.order - 1), p.order - 1)})
    ensures BuddyOf(Block(p.start + Pow2(p.order - 1), p.order - 1)) !in FreeBlocks(s.lists)
  {
    var lo, hi := Block(p.start, p.order - 1), Block(p.start + Pow2(p.order - 1), p.order - 1);
    assert p in AllBlocks(s, live, {p});
    LowerHalf(p);
    PartIsNeither(s, live, p, lo);
    PartIsNeither(s, live, p, hi);
    HeldReplaced(s, live, p, lo, hi);
    SplitTiling(AllBlocks(s, live, {p}), s.total, MAX_ORDER, p, AllBlocks(s, live, {lo, hi}));
  }

  /** Joining two held buddies. */
  lemma JoinHeld(s: Buddy, live: map<nat, nat>, b: Block)
    requires Mid(s, live, {b, BuddyOf(b)}) && b.order < MAX_ORDER
    ensures Mid(s, live, {ParentOf(b)})
  {
    var buddy, p := BuddyOf(b), ParentOf(b);
    var all, all' := AllBlocks(s, live, {b, buddy}), AllBlocks(s, live, {p});
    assert b in all && buddy in all;
    Halves(b);
    forall c | c in FreeBlocks(s.lists) + LiveBlocks(live)
      ensures c != p
    {
      assert c in all && Disjoint(c, b);
    }
    assert all' == all - {b, buddy} + {p};
    MergeTiling(all, s.total, MAX_ORDER, b, all');
  }

  // ---------------------------------------------------------------------------------------
  // Allocation and deallocation keep the invariant
  // ---------------------------------------------------------------------------------------

  /** One turn of the split loop. */
  lemma SplitOnce(s: Buddy, live: map<nat, nat>, index: nat, curr: nat)
    requires curr > 0 && Mid(s, live, {Block(index, curr)})
    ensures curr <= MAX_ORDER && index + Pow2(curr) <= s.total
    ensures Mid(AddFree(s, index + Pow2(curr - 1), curr - 1), live, {Block(index, curr - 1)})
  {
    var p := Block(index, curr);
    assert p in AllBlocks(s, live, {p});
    var lo, hi := Block(index, curr - 1), Block(index + Pow2(curr - 1), curr - 1);
    CutHeld(s, live, p);
    assert lo.start != hi.start;
    Release(s, live, {lo, hi}, hi, {lo});
  }

  lemma {:induction false} SplitKeeps(s: Buddy, live: map<nat, nat>, index: nat, curr: nat, order: nat)
    requires order <= curr && Mid(s, live, {Block(index, curr)})
    ensures curr <= MAX_ORDER && index + Pow2(curr) <= s.total
    ensures Mid(Split(s, index, curr, order), live, {Block(index, order)})
    decreases curr
  {
    if curr > order {
      SplitOnce(s, live, index, curr);
      SplitKeeps(AddFree(s, index + Pow2(curr - 1), curr - 1), live, index, curr - 1, order);
    } else {
      assert Block(index, curr) in AllBlocks(s, live, {Block(index, curr)});
    }
  }

  /** A successful allocation: the block returned was free, and it alone becomes live. */
  lemma AllocKeeps(s: Buddy, live: map<nat, nat>, order: nat)
    requires Valid(s, live)
    ensures Poppable(s)
    ensures var (s', r) := Alloc(s, order);
      && (r.Some? ==> order <= MAX_ORDER && r.value !in live && Valid(s', live[r.value := order]) && s'.total == s.total)
      && (r.None? ==> s' == s)
  {
    MidIsPoppable(s, live, {});
    var found := LowestFrom(s.bitmap, order);
    if found.Some? {
      var index := s.lists[found.value][0];
      var b := Block(index, found.value);
      assert b in FreeBlocks(s.lists);
      Acquire(s, live, {}, b);
      assert {} + {b} == {b};
      var s1 := RemoveFree(s, index, found.value);
      SplitKeeps(s1, live, index, found.value, order);
      MarkLive(Split(s1, index, found.value, order), live, Block(index, order));
    }
  }

  lemma MarkLive(s: Buddy, live: map<nat, nat>, b: Block)
    requires Mid(s, live, {b})
    ensures b.start < s.total && b.start !in live
    ensures Valid(s.(heads := s.heads[b.start := true]), live[b.start := b.order])
  {
    var all := AllBlocks(s, live, {b});
    assert b in all;
    forall c | c in LiveBlocks(live)
      ensures Disjoint(c, b)
    {
      assert c in all;
    }
    var s' := s.(heads := s.heads[b.start := true]);
    var live' := live[b.start := b.order];
    assert LiveBlocks(live') == LiveBlocks(live) + {b};
    assert AllBlocks(s', live', {}) == all;
  }

  lemma MarkDead(s: Buddy, live: map<nat, nat>, index: nat)
    requires Valid(s, live) && index in live
    ensures index < s.total
    ensures Mid(s.(heads := s.heads[index := false]), live - {index}, {Block(index, live[index])})
  {
    var b := Block(index, live[index]);
    assert b in AllBlocks(s, live, {});
    var s' := s.(heads := s.heads[index := false]);
    var live' := live - {index};
    assert LiveBlocks(live') == LiveBlocks(live) - {b};
    assert AllBlocks(s', live', {b}) == AllBlocks(s, live, {});
  }

  /** The read the merge loop makes is safe: when the buddy's first slot is in range and not the
      head of an allocated block, it is the head of a free block, and the byte found there is
      that block's order, whatever clients have written to memory they own. */
  lemma BuddyByteIsAFreeHead(s: Buddy, live: map<nat, nat>, b: Block)
    requires Mid(s, live, {b})
    ensures var i := BuddyOf(b).start;
      i < s.total && !s.heads[i] ==>
        Block(i, s.orderByte[i]) in FreeBlocks(s.lists) && s.orderByte[i] <= b.order
    ensures var i := BuddyOf(b).start;
      BuddyOf(b) in FreeBlocks(s.lists) ==> i < s.total && !s.heads[i] && s.orderByte[i] == b.order
  {
    var all := AllBlocks(s, live, {b});
    var buddy := BuddyOf(b);
    if buddy.start < s.total && !s.heads[buddy.start] {
      var c := BuddySlotHeadsATile(all, s.total, MAX_ORDER, b);
      assert c !in LiveBlocks(live);
    }
    if buddy in FreeBlocks(s.lists) {
      assert buddy in all && Covers(buddy, buddy.start);
      if buddy.start in live {
        var c := Block(buddy.start, live[buddy.start]);
        assert c in LiveBlocks(live) && c in all && Covers(c, c.start);
        TileUnique(all, buddy, c, c.start);
        assert false;
      }
    }
  }

  /** One turn of the merge loop: the free buddy is taken off its list and joined. */
  lemma MergeOnce(s: Buddy, live: map<nat, nat>, b: Block)
    requires Mid(s, live, {b}) && b.order < MAX_ORDER && BuddyOf(b) in FreeBlocks(s.lists)
    ensures Mid(RemoveFree(s, BuddyOf(b).start, b.order), live, {ParentOf(b)})
  {
    var buddy := BuddyOf(b);
    Acquire(s, live, {b}, buddy);
    assert {b} + {buddy} == {b, buddy};
    JoinHeld(RemoveFree(s, buddy.start, b.order), live, b);
  }

  /** A free block never starts inside a block that is held or live. */
  lemma NoFreeHeadInside(s: Buddy, live: map<nat, nat>, held: set<Block>, b: Block, o: nat, x: nat)
    requires Mid(s, live, held) && (b in held || b in LiveBlocks(live))
    requires o < |s.lists| && x in s.lists[o]
    ensures !Covers(b, x)
  {
    var c := Block(x, o);
    assert c in FreeBlocks(s.lists) && c in AllBlocks(s, live, held) && b in AllBlocks(s, live, held);
    assert Disjoint(b, c);
  }

  lemma {:induction false} MergeKeeps(s: Buddy, live: map<nat, nat>, index: nat, order: nat)
    requires Mid(s, live, {Block(index, order)})
    ensures index < s.total && order <= MAX_ORDER
    ensures Valid(Merge(s, index, order), live)
    ensures Merge(s, index, order).total == s.total
    decreases MAX_ORDER - order
  {
    var b := Block(index, order);
    assert b in AllBlocks(s, live, {b});
    var buddy := BuddyOf(b);
    BuddyIsXor(b);
    BuddyByteIsAFreeHead(s, live, b);
    if order < MAX_ORDER && buddy.start < s.total && !s.heads[buddy.start] && s.orderByte[buddy.start] == order {
      MergeOnce(s, live, b);
      MergeKeeps(RemoveFree(s, buddy.start, order), live, ParentOf(b).start, order + 1);
    } else {
      Release(s, live, {b}, b, {});
    }
  }

  /** Freeing a live block with its own order succeeds and removes exactly that block. */
  lemma DeallocKeeps(s: Buddy, live: map<nat, nat>, index: nat, order: nat)
    requires Valid(s, live)
    requires index in live ==> order == live[index]
    ensures index < s.total && s.heads[index] ==> order <= MAX_ORDER
    ensures index in live ==>
      var (s', r) := Dealloc(s, index, order);
      r == Freed && Valid(s', live - {index}) && s'.total == s.total
    ensures index !in live ==>
      Dealloc(s, index, order) == (s, if index < s.total then DoubleFree else InvalidFree)
  {
    if index in live {
      MarkDead(s, live, index);
      MergeKeeps(s.(heads := s.heads[index := false]), live - {index}, index, order);
    }
  }

  /** A client writing any byte into a slot of a block it owns keeps the invariant. */
  lemma ClientWriteKeeps(s: Buddy, live: map<nat, nat>, owned: nat, slot: nat, value: nat)
    requires Valid(s, live) && owned in live && Covers(Block(owned, live[owned]), slot)
    ensures slot < s.total
    ensures Valid(s.(orderByte := s.orderByte[slot := value]), live)
  {
    var b := Block(owned, live[owned]);
    var all := AllBlocks(s, live, {});
    assert b in LiveBlocks(live) && b in all;
    var s' := s.(orderByte := s.orderByte[slot := value]);
    forall c | c in FreeBlocks(s'.lists)
      ensures c.start < s'.total && s'.orderByte[c.start] == c.order
    {
      assert c in all && c != b && Disjoint(c, b);
    }
    assert AllBlocks(s', live, {}) == all;
  }

  // ---------------------------------------------------------------------------------------
  // Coalescing is canonical and allocation is complete
  // ---------------------------------------------------------------------------------------

  /** An aligned run inside the arena that meets no live block. */
  ghost predicate FreeRun(live: map<nat, nat>, total: nat, r: Block) {
    Aligned(r) && End(r) <= total && forall b :: b in LiveBlocks(live) ==> Disjoint(b, r)
  }

  lemma FreeBlockIsFreeRun(s: Buddy, live: map<nat, nat>, b: Block)
    requires Valid(s, live) && b in FreeBlocks(s.lists)
    ensures FreeRun(live, s.total, b) && b.order <= MAX_ORDER
  {
    var all := AllBlocks(s, live, {});
    assert b in all;
    forall c | c in LiveBlocks(live)
      ensures Disjoint(c, b)
    {
      assert c in all && c != b;
    }
  }

  lemma HalvesAreFreeRuns(live: map<nat, nat>, total: nat, r: Block)
    requires FreeRun(live, total, r) && r.order > 0
    ensures FreeRun(live, total, Block(r.start, r.order - 1))
    ensures FreeRun(live, total, Block(r.start + Pow2(r.order - 1), r.order - 1))
  {
    LowerHalf(r);
  }

  lemma FreeSlotInOneBlock(s: Buddy, live: map<nat, nat>, r: Block) returns (b: Block)
    requires Valid(s, live) && FreeRun(live, s.total, r) && r.order == 0
    ensures b in FreeBlocks(s.lists) && Inside(r, b)
  {
    var all := AllBlocks(s, live, {});
    assert Covered(all, r.start);
    b :| b in all && Covers(b, r.start);
    assert b in LiveBlocks(live) ==> Disjoint(b, r);
  }

  /** Two free halves cannot sit in two separate blocks. */
  lemma HalvesShareABlock(free: set<Block>, r: Block, bl: Block, bh: Block) returns (b: Block)
    requires Coalesced(free) && Aligned(r) && 0 < r.order <= MAX_ORDER
    requires bl in free && bh in free && Aligned(bl) && Aligned(bh)
    requires Inside(Block(r.start, r.order - 1), bl)
    requires Inside(Block(r.start + Pow2(r.order - 1), r.order - 1), bh)
    ensures b in free && Inside(r, b)
  {
    var lo, hi := Block(r.start, r.order - 1), Block(r.start + Pow2(r.order - 1), r.order - 1);
    LowerHalf(r);
    InsideOrder(lo, bl);
    InsideOrder(hi, bh);
    b := bl;
    if bl.order > lo.order {
      StrictlyLargerHoldsParent(lo, bl);
    } else {
      b := bh;
      StrictlyLargerHoldsParent(hi, bh);
    }
  }

  /** Every free aligned run lies inside a single free block: free memory is never fragmented
      across two blocks that could have been joined. */
  lemma {:induction false} FreeRunInOneBlock(s: Buddy, live: map<nat, nat>, r: Block) returns (b: Block)
    requires Valid(s, live) && FreeRun(live, s.total, r) && r.order <= MAX_ORDER
    ensures b in FreeBlocks(s.lists) && Inside(r, b)
    decreases r.order
  {
    if r.order == 0 {
      b := FreeSlotInOneBlock(s, live, r);
    } else {
      HalvesAreFreeRuns(live, s.total, r);
      var bl := FreeRunInOneBlock(s, live, Block(r.start, r.order - 1));
      var bh := FreeRunInOneBlock(s, live, Block(r.start + Pow2(r.order - 1), r.order - 1));
      FreeBlockIsFreeRun(s, live, bl);
      FreeBlockIsFreeRun(s, live, bh);
      b := HalvesShareABlock(FreeBlocks(s.lists), r, bl, bh);
    }
  }

  /** The free blocks are exactly the maximal free aligned runs: a function of the live blocks
      alone, independent of history, list order and client writes. */
  lemma FreeBlocksAreMaximalRuns(s: Buddy, live: map<nat, nat>, b: Block)
    requires Valid(s, live)
    ensures b in FreeBlocks(s.lists) <==>
      && FreeRun(live, s.total, b) && b.order <= MAX_ORDER
      && (b.order < MAX_ORDER ==> !FreeRun(live, s.total, ParentOf(b)))
  {
    var all := AllBlocks(s, live, {});
    if b in FreeBlocks(s.lists) {
      FreeBlockIsFreeRun(s, live, b);
      if b.order < MAX_ORDER && FreeRun(live, s.total, ParentOf(b)) {
        var c := FreeRunInOneBlock(s, live, ParentOf(b));
        Halves(b);
        InsideOrder(ParentOf(b), c);
        assert b in all && c in all;
        TileUnique(all, b, c, b.start);
        assert false;
      }
    } else if FreeRun(live, s.total, b) && b.order <= MAX_ORDER {
      var c := FreeRunInOneBlock(s, live, b);
      InsideOrder(b, c);
      FreeBlockIsFreeRun(s, live, c);
      StrictlyLargerHoldsParent(b, c);
      assert FreeRun(live, s.total, ParentOf(b)) by {
        Halves(b);
        InsideOrder(b, c);
      }
    }
  }

  /** Two allocators over arenas of one size with the same live blocks have the same free blocks. */
  lemma FreeSetIsDetermined(s: Buddy, s': Buddy, live: map<nat, nat>)
    requires Valid(s, live) && Valid(s', live) && s.total == s'.total
    ensures FreeBlocks(s.lists) == FreeBlocks(s'.lists)
    ensures forall o :: 0 <= o <= MAX_ORDER ==> (o in s.bitmap <==> o in s'.bitmap)
  {
    forall b
      ensures b in FreeBlocks(s.lists) <==> b in FreeBlocks(s'.lists)
    {
      FreeBlocksAreMaximalRuns(s, live, b);
      FreeBlocksAreMaximalRuns(s', live, b);
    }
    forall o | 0 <= o <= MAX_ORDER
      ensures o in s.bitmap <==> o in s'.bitmap
    {
      assert s.lists[o] != [] ==> Block(s.lists[o][0], o) in FreeBlocks(s.lists);
      assert s'.lists[o] != [] ==> Block(s'.lists[o][0], o) in FreeBlocks(s'.lists);
    }
  }

  /** Among the free blocks that are large enough, `b` is one of the smallest. */
  ghost predicate BestFit(free: set<Block>, order: nat, b: Block) {
    b in free && b.order >= order && forall c :: c in free && c.order >= order ==> b.order <= c.order
  }

  /** The block at `index` is the front of a list of best fits. */
  ghost predicate FrontOfBestFit(lists: seq<seq<nat>>, order: nat, index: nat) {
    exists o: nat :: BestFit(FreeBlocks(lists), order, Block(index, o)) && lists[o][0] == index
  }

  /** `alloc` cuts the block it returns off the front of a best fit, the one that was freed last. */
  lemma AllocIsBestFit(s: Buddy, live: map<nat, nat>, order: nat)
    requires Valid(s, live)
    ensures Poppable(s)
    ensures var r := Alloc(s, order).1; r.Some? ==> FrontOfBestFit(s.lists, order, r.value)
  {
    MidIsPoppable(s, live, {});
    var r := Alloc(s, order).1;
    if r.Some? {
      var o := LowestFrom(s.bitmap, order).value;
      assert BestFit(FreeBlocks(s.lists), order, Block(r.value, o));
    }
  }

  lemma FrontIsTaken(s: Buddy, order: nat)
    requires Poppable(s) && order <= MAX_ORDER && s.lists[order] != []
    ensures Alloc(s, order).1 == Some(s.lists[order][0])
  {
    assert LowestFrom(s.bitmap, order) == Some(order);
  }

  lemma LoneBlockIsNotMerged(s: Buddy, live: map<nat, nat>, b: Block)
    requires Mid(s, live, {b}) && (b.order < MAX_ORDER ==> BuddyOf(b) !in FreeBlocks(s.lists))
    ensures b.start < s.total && b.order <= MAX_ORDER
    ensures Merge(s, b.start, b.order) == AddFree(s, b.start, b.order)
  {
    assert b in AllBlocks(s, live, {b});
    BuddyByteIsAFreeHead(s, live, b);
    BuddyIsXor(b);
  }

  /** A block freed whose buddy is not free is what the next allocation of its order gets. */
  lemma FreedBlockComesBack(s: Buddy, live: map<nat, nat>, index: nat, s': Buddy)
    requires Valid(s, live) && index in live
    requires var b := Block(index, live[index]); b.order < MAX_ORDER ==> BuddyOf(b) !in FreeBlocks(s.lists)
    requires index < s.total && live[index] <= MAX_ORDER && s' == Dealloc(s, index, live[index]).0
    ensures Poppable(s') && Alloc(s', live[index]).1 == Some(index)
  {
    var order, b := live[index], Block(index, live[index]);
    DeallocKeeps(s, live, index, order);
    MidIsPoppable(s', live - {index}, {});
    MarkDead(s, live, index);
    LoneBlockIsNotMerged(s.(heads := s.heads[index := false]), live - {index}, b);
    FrontIsTaken(s', order);
  }

  /** `alloc` refuses exactly when it must. */
  lemma AllocIsComplete(s: Buddy, live: map<nat, nat>, order: nat)
    requires Valid(s, live)
    ensures Poppable(s)
    ensures Alloc(s, order).1.None? <==>
      (order > MAX_ORDER || forall start: nat :: !FreeRun(live, s.total, Block(start, order)))
    ensures var r := Alloc(s, order).1; r.Some? ==> FreeRun(live, s.total, Block(r.value, order))
  {
    MidIsPoppable(s, live, {});
    AllocKeeps(s, live, order);
    var (s', r) := Alloc(s, order);
    if r.Some? {
      var b := Block(r.value, order);
      var all := AllBlocks(s', live[r.value := order], {});
      assert b in all;
      forall c | c in LiveBlocks(live)
        ensures Disjoint(c, b)
      {
        assert c in all && c != b;
      }
      assert FreeRun(live, s.total, Block(r.value, order));
    } else if order <= MAX_ORDER {
      forall start: nat
        ensures !FreeRun(live, s.total, Block(start, order))
      {
        if FreeRun(live, s.total, Block(start, order)) {
          var b := FreeRunInOneBlock(s, live, Block(start, order));
          InsideOrder(Block(start, order), b);
          assert false;
        }
      }
    }
  }

  // ---------------------------------------------------------------------------------------
  // The initial decomposition
  // ---------------------------------------------------------------------------------------

  /** The first `start` slots are tiled by free blocks; `align` is the alignment still held. */
  ghost predicate Placing(s: Buddy, start: nat, align: nat) {
    && ListsOk(s)
    && BytesOk(s, map[])
    && start <= s.total
    && Tiling(FreeBlocks(s.lists), start, MAX_ORDER)
    && Coalesced(FreeBlocks(s.lists))
    && align <= MAX_ORDER
    && ZeroBits(start, align)
    && (align < MAX_ORDER ==> s.total - start < Pow2(align))
    && (forall b :: b in FreeBlocks(s.lists) && b.order < MAX_ORDER ==> align <= b.order)
  }

  lemma ExtendTiling(blocks: set<Block>, start: nat, b: Block)
    requires Tiling(blocks, start, MAX_ORDER) && b.start == start && Aligned(b) && b.order <= MAX_ORDER
    ensures Tiling(blocks + {b}, End(b), MAX_ORDER)
  {
    forall i | 0 <= i < End(b)
      ensures Covered(blocks + {b}, i)
    {
      if i < start {
        assert Covered(blocks, i);
        var c :| c in blocks && Covers(c, i);
        assert c in blocks + {b};
      } else {
        assert b in blocks + {b} && Covers(b, i);
      }
    }
  }

  lemma NextOrder(n: nat, align: nat, o: nat)
    requires align <= MAX_ORDER && (align < MAX_ORDER ==> n < Pow2(align)) && Fits(n, o)
    ensures o <= align && (align < MAX_ORDER ==> o < align)
  {
    if align < o {
      Pow2Mono(align, o);
    }
  }

  lemma StartStaysAligned(start: nat, order: nat, align: nat)
    requires ZeroBits(start, align) && order <= align
    ensures ZeroBits(start, order) && ZeroBits(start + Pow2(order), order)
  {
    var b := Block(start, order);
    assert Aligned(Block(start, align));
    AlignedDown(start, order, align);
    AlignedEnd(b, order);
    assert End(b) == start + Pow2(order);
  }

  lemma PlaceNext(s: Buddy, start: nat, align: nat, order: nat, s': Buddy)
    requires Placing(s, start, align) && start < s.total && Fits(s.total - start, order)
    requires s' == AddFree(s, start, order)
    ensures Placing(s', start + Pow2(order), order)
  {
    NextOrder(s.total - start, align, order);
    var b := Block(start, order);
    StartStaysAligned(start, order, align);
    AddFreeBlocks(s, start, order);
    ExtendTiling(FreeBlocks(s.lists), start, b);
    PlacedBytes(s, s', start, order);
    assert FreeBlocks(s'.lists) == FreeBlocks(s.lists) + {b};
    NewBlockHasNoBuddy(FreeBlocks(s.lists), b, align);
    assert ListsOk(s');
    assert BytesOk(s', map[]);
    assert Tiling(FreeBlocks(s'.lists), start + Pow2(order), MAX_ORDER);
    assert Coalesced(FreeBlocks(s'.lists));
    assert ZeroBits(start + Pow2(order), order);
    assert (forall b :: b in FreeBlocks(s'.lists) && b.order < MAX_ORDER ==> order <= b.order);
    assert order < MAX_ORDER ==> s.total - start - Pow2(order) < Pow2(order);
  }

  lemma NewBlockHasNoBuddy(free: set<Block>, b: Block, align: nat)
    requires Coalesced(free) && Aligned(b)
    requires forall c :: c in free && c.order < MAX_ORDER ==> align <= c.order
    requires b.order <= align && (align < MAX_ORDER ==> b.order < align)
    ensures Coalesced(free + {b})
    ensures forall c :: c in free + {b} && c.order < MAX_ORDER ==> b.order <= c.order
  {
    Halves(b);
    forall c | c in free + {b} && c.order < MAX_ORDER
      ensures BuddyOf(c) !in free + {b}
    {
      assert BuddyOf(c).order == c.order;
      assert c == b ==> BuddyOf(c).start != b.start;
    }
  }

  lemma PlacedBytes(s: Buddy, s': Buddy, start: nat, order: nat)
    requires ListsOk(s) && BytesOk(s, map[]) && start < s.total && order <= MAX_ORDER
    requires s' == AddFree(s, start, order)
    requires FreeBlocks(s'.lists) == FreeBlocks(s.lists) + {Block(start, order)}
    requires Tiling(FreeBlocks(s.lists), start, MAX_ORDER)
    ensures BytesOk(s', map[])
  {
    forall c | c in FreeBlocks(s'.lists)
      ensures c.start < s'.total && s'.orderByte[c.start] == c.order
    {
      assert c in FreeBlocks(s.lists) ==> End(c) <= start;
    }
  }

  lemma PlacingDone(s: Buddy, align: nat)
    requires Placing(s, s.total, align)
    ensures Valid(s, map[])
  {
    assert AllBlocks(s, map[], {}) == FreeBlocks(s.lists);
  }

  /** Before the first block is placed nothing is tiled and every alignment holds. */
  lemma NothingPlaced(s: Buddy)
    requires Shaped(s) && s.bitmap == {}
    requires forall o :: 0 <= o <= MAX_ORDER ==> s.lists[o] == []
    requires forall i :: 0 <= i < s.total ==> !s.heads[i]
    ensures Placing(s, 0, MAX_ORDER)
  {
    AlignedIsMultiple(0, MAX_ORDER);
    assert FreeBlocks(s.lists) == {};
  }

  lemma LargestFit(n: nat) returns (order: nat)
    requires n >= 1
    ensures Fits(n, order)
  {
    order := FittingOrder(n);
  }

  lemma {:induction false} PlaceRest(s: Buddy, start: nat, align: nat) returns (r: Buddy)
    requires Placing(s, start, align)
    ensures Valid(r, map[]) && r.total == s.total
    decreases s.total - start
  {
    if start == s.total {
      PlacingDone(s, align);
      r := s;
    } else {
      var order := LargestFit(s.total - start);
      var s' := PlaceOne(s, start, align, order);
      r := PlaceRest(s', start + Pow2(order), order);
    }
  }

  lemma PlaceOne(s: Buddy, start: nat, align: nat, order: nat) returns (s': Buddy)
    requires Placing(s, start, align) && start < s.total && Fits(s.total - start, order)
    ensures Placing(s', start + Pow2(order), order) && s'.total == s.total
  {
    s' := AddFree(s, start, order);
    PlaceNext(s, start, align, order, s');
  }

  /** An arena of any size can be carved up: there is a valid allocator with nothing allocated. */
  lemma FreshArenaExists(total: nat) returns (s: Buddy)
    ensures Valid(s, map[]) && s.total == total
  {
    var bare := Buddy(total, seq(MAX_ORDER + 1, _ => []), {}, seq(total, _ => false), seq(total, _ => 0));
    NothingPlaced(bare);
    s := PlaceRest(bare, 0, MAX_ORDER);
  }

  // ---------------------------------------------------------------------------------------
  // Whole runs
  // ---------------------------------------------------------------------------------------

  datatype Op =
    | AllocOp(order: nat)
    | FreeOp(index: nat)
    | WriteOp(owned: nat, slot: nat, value: nat)

  datatype World = World(s: Buddy, live: map<nat, nat>)

  /** Clients free only blocks they own and write only inside blocks they own. */
  ghost predicate Legal(w: World, op: Op) {
    match op
    case AllocOp(_) => true
    case FreeOp(index) => index in w.live
    case WriteOp(owned, slot, _) => owned in w.live && Covers(Block(owned, w.live[owned]), slot)
  }

  ghost function Perform(w: World, op: Op): (w': World)
    requires Valid(w.s, w.live) && Legal(w, op)
    ensures Valid(w'.s, w'.live) && w'.s.total == w.s.total
  {
    match op
    case AllocOp(order) =>
      AllocKeeps(w.s, w.live, order);
      var (s', r) := Alloc(w.s, order);
      World(s', if r.Some? then w.live[r.value := order] else w.live)
    case FreeOp(index) =>
      DeallocKeeps(w.s, w.live, index, w.live[index]);
      World(Dealloc(w.s, index, w.live[index]).0, w.live - {index})
    case WriteOp(owned, slot, value) =>
      ClientWriteKeeps(w.s, w.live, owned, slot, value);
      World(w.s.(orderByte := w.s.orderByte[slot := value]), w.live)
  }

  /** `ops` leads from `w` to `w'`, every operation being legal when it happens. */
  ghost predicate Runs(w: World, ops: seq<Op>, w': World)
    requires Valid(w.s, w.live)
    decreases |ops|
  {
    if ops == [] then w == w'
    else Legal(w, ops[0]) && Runs(Perform(w, ops[0]), ops[1..], w')
  }

  lemma {:induction false} RunKeeps(w: World, ops: seq<Op>, w': World)
    requires Valid(w.s, w.live) && Runs(w, ops, w')
    ensures Valid(w'.s, w'.live) && w'.s.total == w.s.total
    decreases |ops|
  {
    if ops != [] {
      RunKeeps(Perform(w, ops[0]), ops[1..], w');
    }
  }

  /** After any run from a fresh allocator, free and live blocks tile the arena, the order word
      matches the lists, and no two buddies below the largest order are both free. */
  lemma EveryRunIsSafe(fresh0: Buddy, ops: seq<Op>, w: World)
    requires Valid(fresh0, map[])
    requires Runs(World(fresh0, map[]), ops, w)
    ensures Shaped(w.s) && Tiling(FreeBlocks(w.s.lists) + LiveBlocks(w.live), fresh0.total, MAX_ORDER)
    ensures FreeBlocks(w.s.lists) !! LiveBlocks(w.live)
    ensures forall o :: 0 <= o <= MAX_ORDER ==> (o in w.s.bitmap <==> w.s.lists[o] != [])
    ensures Coalesced(FreeBlocks(w.s.lists))
  {
    RunKeeps(World(fresh0, map[]), ops, w);
    assert AllBlocks(w.s, w.live, {}) == FreeBlocks(w.s.lists) + LiveBlocks(w.live);
  }

  /** Freeing everything, in any order and after any history, restores the first decomposition. */
  lemma DrainingRestoresTheArena(fresh0: Buddy, ops: seq<Op>, w: World)
    requires Valid(fresh0, map[])
    requires Runs(World(fresh0, map[]), ops, w) && w.live == map[]
    ensures FreeBlocks(w.s.lists) == FreeBlocks(fresh0.lists)
  {
    RunKeeps(World(fresh0, map[]), ops, w);
    FreeSetIsDetermined(w.s, fresh0, map[]);
  }
}
