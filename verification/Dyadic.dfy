/** Power-of-two blocks of slots, aligned to their own size, and sets of such blocks that
    tile an arena. */
module Dyadic {
  import opened Bits

  /** The run of `2^order` slots that begins at `start`. */
  datatype Block = Block(start: nat, order: nat)

  function End(b: Block): nat {
    b.start + Pow2(b.order)
  }

  /** `start` ends in at least `order` zero bits. */
  predicate ZeroBits(start: nat, order: nat) {
    order == 0 || (start % 2 == 0 && ZeroBits(start / 2, order - 1))
  }

  /** The block begins at a multiple of its own size (see `AlignedIsMultiple`). */
  predicate Aligned(b: Block) {
    ZeroBits(b.start, b.order)
  }

  lemma {:induction false} AlignedIsMultiple(start: nat, order: nat)
    ensures ZeroBits(start, order) <==> start % Pow2(order) == 0
    decreases order
  {
    if order > 0 {
      AlignedIsMultiple(start / 2, order - 1);
      HalfMod(start, Pow2(order - 1));
    }
  }

  predicate Covers(b: Block, i: int) {
    b.start <= i < End(b)
  }

  predicate Disjoint(b: Block, c: Block) {
    End(b) <= c.start || End(c) <= b.start
  }

  predicate Inside(b: Block, c: Block) {
    c.start <= b.start && End(b) <= End(c)
  }

  /** The other half of the block twice the size: one block size up from an even multiple of the
      size and one down from an odd one. `BuddyIsXor` relates this to the source's exclusive or. */
  function BuddyOf(b: Block): Block {
    if ZeroBits(b.start, b.order + 1) then b.(start := b.start + Pow2(b.order))
    else if b.start >= Pow2(b.order) then b.(start := b.start - Pow2(b.order))
    else b
  }

  /** The block twice the size made of `b` and its buddy. */
  function ParentOf(b: Block): Block {
    var buddy := BuddyOf(b);
    Block(if buddy.start < b.start then buddy.start else b.start, b.order + 1)
  }

  lemma AlignedDown(start: nat, low: nat, high: nat)
    requires low <= high
    requires Aligned(Block(start, high))
    ensures Aligned(Block(start, low))
  {
    AlignedIsMultiple(start, high);
    AlignedIsMultiple(start, low);
    Pow2Add(low, high - low);
    var q := start / Pow2(high);
    assert start == Pow2(high) * q;
    assert Pow2(high) * q == Pow2(low) * (Pow2(high - low) * q);
    MulMod(Pow2(low), Pow2(high - low) * q);
  }

  /** Multiples of `m` that lie within less than `m` of each other are equal. */
  lemma MultiplesApart(m: nat, x: nat, y: nat)
    requires m > 0 && x % m == 0 && y % m == 0 && x < y
    ensures x + m <= y
  {
    var p, q := x / m, y / m;
    assert x == m * p && y == m * q;
    assert m * (q - p) == y - x;
    if q > p {
      MulAtLeast(m, q - p);
    }
  }

  lemma SumOfMultiples(m: nat, p: nat, q: nat)
    requires m > 0
    ensures (m * p + m * q) % m == 0
  {
    assert m * p + m * q == m * (p + q);
    MulMod(m, p + q);
  }

  lemma AlignedEnd(b: Block, low: nat)
    requires Aligned(b) && low <= b.order
    ensures ZeroBits(End(b), low)
  {
    AlignedDown(b.start, low, b.order);
    AlignedIsMultiple(b.start, low);
    Pow2Add(low, b.order - low);
    assert b.start == Pow2(low) * (b.start / Pow2(low));
    SumOfMultiples(Pow2(low), b.start / Pow2(low), Pow2(b.order - low));
    AlignedIsMultiple(End(b), low);
  }

  /** Aligned blocks never partly overlap. */
  lemma NestedOrDisjoint(b: Block, c: Block)
    requires Aligned(b) && Aligned(c) && b.order <= c.order
    ensures Inside(b, c) || Disjoint(b, c)
  {
    AlignedDown(c.start, b.order, c.order);
    AlignedEnd(c, b.order);
    AlignedIsMultiple(b.start, b.order);
    AlignedIsMultiple(c.start, b.order);
    AlignedIsMultiple(End(c), b.order);
    if b.start < c.start {
      MultiplesApart(Pow2(b.order), b.start, c.start);
    } else if b.start < End(c) {
      MultiplesApart(Pow2(b.order), b.start, End(c));
    }
  }

  lemma MeetingBlocksNest(b: Block, c: Block, i: int)
    requires Aligned(b) && Aligned(c) && b.order <= c.order
    requires Covers(b, i) && Covers(c, i)
    ensures Inside(b, c)
    ensures b.order == c.order ==> b == c
  {
    NestedOrDisjoint(b, c);
  }

  lemma NextMultiple(m: nat, q: int)
    requires m > 0
    ensures (m * q + m) % m == 0 && (m * q + m) / m == q + 1
  {
    assert m * q + m == m * (q + 1);
    MulMod(m, q + 1);
  }

  lemma TwiceMultiple(m: nat, h: int)
    requires m > 0
    ensures (m * (2 * h)) % (2 * m) == 0
  {
    assert m * (2 * h) == (2 * m) * h;
    MulMod(2 * m, h);
  }

  lemma EvenMultiple(m: nat, x: nat)
    requires m > 0 && x % m == 0 && (x / m) % 2 == 0
    ensures x % (2 * m) == 0
    ensures (x + m) % m == 0 && (x + m) / m == x / m + 1
  {
    var q := x / m;
    var h := q / 2;
    assert x == m * q && q == 2 * h;
    NextMultiple(m, q);
    TwiceMultiple(m, h);
  }

  lemma OddMultiple(m: nat, x: nat)
    requires m > 0 && x % m == 0 && (x / m) % 2 == 1
    ensures x >= m
    ensures (x - m) % m == 0 && (x - m) / m == x / m - 1
    ensures (x - m) % (2 * m) == 0
  {
    var q := x / m;
    MulAtLeast(m, q);
    assert x - m == m * (q - 1);
    MulMod(m, q - 1);
    EvenMultiple(m, x - m);
  }

  lemma FlipParity(q: int)
    ensures (q + 1) % 2 == 1 - q % 2 && (q - 1) % 2 == 1 - q % 2
  {
  }

  lemma EvenIsAlignedTwice(start: nat, order: nat)
    requires ZeroBits(start, order)
    ensures ZeroBits(start, order + 1) <==> (start / Pow2(order)) % 2 == 0
  {
    var m := Pow2(order);
    AlignedIsMultiple(start, order);
    AlignedIsMultiple(start, order + 1);
    if (start / m) % 2 == 0 {
      EvenMultiple(m, start);
    } else {
      OddMultiple(m, start);
      if start % (2 * m) == 0 {
        MultiplesApart(2 * m, start - m, start);
      }
    }
  }

  /** Flipping the bit of weight `2^order` of an aligned start gives the buddy's start. */
  lemma BuddyIsXor(b: Block)
    requires Aligned(b)
    ensures Xor(b.start, Pow2(b.order)) == BuddyOf(b).start
  {
    XorPow2(b.start, b.order);
    EvenIsAlignedTwice(b.start, b.order);
    AlignedIsMultiple(b.start, b.order);
    if (b.start / Pow2(b.order)) % 2 == 1 {
      OddMultiple(Pow2(b.order), b.start);
    }
  }

  lemma BuddyUp(b: Block)
    requires Aligned(b) && ZeroBits(b.start, b.order + 1)
    ensures BuddyOf(b) == Block(b.start + Pow2(b.order), b.order)
    ensures Aligned(BuddyOf(b)) && !ZeroBits(b.start + Pow2(b.order), b.order + 1)
  {
    var m := Pow2(b.order);
    AlignedIsMultiple(b.start, b.order);
    EvenIsAlignedTwice(b.start, b.order);
    EvenMultiple(m, b.start);
    AlignedIsMultiple(b.start + m, b.order);
    FlipParity(b.start / m);
    EvenIsAlignedTwice(b.start + m, b.order);
  }

  lemma BuddyDown(b: Block)
    requires Aligned(b) && !ZeroBits(b.start, b.order + 1)
    ensures b.start >= Pow2(b.order)
    ensures BuddyOf(b) == Block(b.start - Pow2(b.order), b.order)
    ensures Aligned(BuddyOf(b)) && ZeroBits(b.start - Pow2(b.order), b.order + 1)
  {
    var m := Pow2(b.order);
    AlignedIsMultiple(b.start, b.order);
    EvenIsAlignedTwice(b.start, b.order);
    OddMultiple(m, b.start);
    AlignedIsMultiple(b.start - m, b.order);
    AlignedIsMultiple(b.start - m, b.order + 1);
  }

  /** A block and its buddy are the two halves of their parent. */
  lemma Halves(b: Block)
    requires Aligned(b)
    ensures Aligned(BuddyOf(b)) && Aligned(ParentOf(b))
    ensures BuddyOf(BuddyOf(b)) == b && ParentOf(BuddyOf(b)) == ParentOf(b)
    ensures b.start < BuddyOf(b).start ==> BuddyOf(b).start == End(b) && ParentOf(b).start == b.start
    ensures b.start >= BuddyOf(b).start ==> b.start == End(BuddyOf(b)) && ParentOf(b).start == BuddyOf(b).start
    ensures End(ParentOf(b)) == ParentOf(b).start + 2 * Pow2(b.order)
  {
    if ZeroBits(b.start, b.order + 1) {
      BuddyUp(b);
    } else {
      BuddyDown(b);
    }
    assert Pow2(b.order + 1) == 2 * Pow2(b.order);
  }

  /** Splitting: the lower half keeps the start, the upper half is its buddy. */
  lemma LowerHalf(p: Block)
    requires Aligned(p) && p.order > 0
    ensures var lo, hi := Block(p.start, p.order - 1), Block(p.start + Pow2(p.order - 1), p.order - 1);
      && Aligned(lo) && Aligned(hi) && BuddyOf(lo) == hi && BuddyOf(hi) == lo
      && ParentOf(lo) == p && ParentOf(hi) == p && End(lo) == hi.start && End(hi) == End(p)
  {
    AlignedDown(p.start, p.order - 1, p.order);
    BuddyUp(Block(p.start, p.order - 1));
    Halves(Block(p.start, p.order - 1));
  }

  /** A block that strictly contains one of two buddies contains the other. */
  lemma StrictlyLargerHoldsParent(b: Block, c: Block)
    requires Aligned(b) && Aligned(c) && Inside(b, c) && b.order < c.order
    ensures Inside(ParentOf(b), c) && Inside(BuddyOf(b), c)
  {
    Halves(b);
    MeetingBlocksNest(ParentOf(b), c, b.start);
  }

  lemma InsideOrder(b: Block, c: Block)
    requires Inside(b, c)
    ensures b.order <= c.order
    ensures b.order == c.order ==> b == c
  {
    if b.order > c.order {
      Pow2Mono(c.order, b.order);
    }
  }

  // ---------------------------------------------------------------------------------------
  // Tilings
  // ---------------------------------------------------------------------------------------

  ghost predicate WellPlaced(blocks: set<Block>, total: nat, maxOrder: nat) {
    forall b :: b in blocks ==> b.order <= maxOrder && Aligned(b) && End(b) <= total
  }

  ghost predicate PairwiseDisjoint(blocks: set<Block>) {
    forall b, c {:trigger Disjoint(b, c)} :: b in blocks && c in blocks && b != c ==> Disjoint(b, c)
  }

  ghost predicate Covered(blocks: set<Block>, i: int) {
    exists b :: b in blocks && Covers(b, i)
  }

  ghost predicate CoversAll(blocks: set<Block>, total: nat) {
    forall i :: 0 <= i < total ==> Covered(blocks, i)
  }

  /** `blocks` cut `[0, total)` into disjoint aligned runs. */
  ghost predicate Tiling(blocks: set<Block>, total: nat, maxOrder: nat) {
    WellPlaced(blocks, total, maxOrder) && PairwiseDisjoint(blocks) && CoversAll(blocks, total)
  }

  lemma SplitTiling(blocks: set<Block>, total: nat, maxOrder: nat, p: Block, blocks': set<Block>)
    requires Tiling(blocks, total, maxOrder) && p in blocks && p.order > 0
    requires blocks' == blocks - {p} + {Block(p.start, p.order - 1), Block(p.start + Pow2(p.order - 1), p.order - 1)}
    ensures Tiling(blocks', total, maxOrder)
  {
    LowerHalf(p);
    var lo, hi := Block(p.start, p.order - 1), Block(p.start + Pow2(p.order - 1), p.order - 1);
    forall i | 0 <= i < total
      ensures Covered(blocks', i)
    {
      assert Covered(blocks, i);
      var b :| b in blocks && Covers(b, i);
      if b == p {
        assert Covers(lo, i) || Covers(hi, i);
        assert lo in blocks' && hi in blocks';
      } else {
        assert b in blocks';
      }
    }
    forall b, c | b in blocks' && c in blocks' && b != c
      ensures Disjoint(b, c)
    {
      assert b in blocks ==> Disjoint(b, p) || b == p;
      assert c in blocks ==> Disjoint(c, p) || c == p;
    }
  }

  lemma MergeTiling(blocks: set<Block>, total: nat, maxOrder: nat, b: Block, blocks': set<Block>)
    requires Tiling(blocks, total, maxOrder) && b in blocks && BuddyOf(b) in blocks && b.order < maxOrder
    requires blocks' == blocks - {b, BuddyOf(b)} + {ParentOf(b)}
    ensures Tiling(blocks', total, maxOrder)
  {
    Halves(b);
    var buddy, p := BuddyOf(b), ParentOf(b);
    forall i | 0 <= i < total
      ensures Covered(blocks', i)
    {
      assert Covered(blocks, i);
      var c :| c in blocks && Covers(c, i);
      if c == b || c == buddy {
        assert Covers(p, i) && p in blocks';
      } else {
        assert c in blocks';
      }
    }
    forall c, d | c in blocks' && d in blocks' && c != d
      ensures Disjoint(c, d)
    {
      if c == p {
        assert d in blocks && Disjoint(d, b) && Disjoint(d, buddy);
      } else if d == p {
        assert c in blocks && Disjoint(c, b) && Disjoint(c, buddy);
      }
    }
  }

  lemma TileUnique(blocks: set<Block>, b: Block, c: Block, i: int)
    requires PairwiseDisjoint(blocks) && b in blocks && c in blocks
    requires Covers(b, i) && Covers(c, i)
    ensures b == c
  {
    assert b == c || Disjoint(b, c);
  }

  /** The design note of the merge loop: in a tiling that contains `b`, the first slot of `b`'s
      buddy is always the first slot of some tile, and that tile is no larger than `b`. */
  lemma BuddySlotHeadsATile(blocks: set<Block>, total: nat, maxOrder: nat, b: Block) returns (c: Block)
    requires Tiling(blocks, total, maxOrder) && b in blocks
    requires BuddyOf(b).start < total
    ensures c in blocks && c != b && c.start == BuddyOf(b).start && c.order <= b.order
  {
    Halves(b);
    var buddy := BuddyOf(b);
    assert Covered(blocks, buddy.start);
    c :| c in blocks && Covers(c, buddy.start);
    if c.order > b.order {
      MeetingBlocksNest(buddy, c, buddy.start);
      StrictlyLargerHoldsParent(buddy, c);
      TileUnique(blocks, b, c, b.start);
      assert false;
    }
    MeetingBlocksNest(c, buddy, buddy.start);
  }
}
