/** The allocator object: free lists threaded through slot memory, order word and allocation bits updated
    in place, each method proved against the value-level operation it carries out. */
module BuddyAllocation {
  import opened Bits
  import opened Dyadic
  import opened Prelude
  import opened Sequences
  import opened BuddySpec
  import opened FreeListMemory

  /** No list element lies in `[lo, hi)`. */
  ghost predicate ClearOf(lists: Lists, lo: nat, hi: nat) {
    forall o, x :: 0 <= o < |lists| && x in lists[o] ==> !(lo <= x < hi)
  }

  lemma HeldIsClear(s: Buddy, live: map<nat, nat>, index: nat, order: nat)
    requires Mid(s, live, {Block(index, order)})
    ensures order <= MAX_ORDER && index + Pow2(order) <= s.total && ClearOf(s.lists, index, index + Pow2(order))
  {
    var b := Block(index, order);
    assert b in AllBlocks(s, live, {b});
    forall o, x | 0 <= o < |s.lists| && x in s.lists[o]
      ensures !(index <= x < index + Pow2(order))
    {
      NoFreeHeadInside(s, live, {b}, b, o, x);
    }
  }

  lemma LiveIsUnlisted(s: Buddy, live: map<nat, nat>, owned: nat, slot: nat)
    requires Valid(s, live) && owned in live && Covers(Block(owned, live[owned]), slot)
    ensures !Listed(s.lists, slot)
  {
    forall o | 0 <= o < |s.lists| && slot in s.lists[o]
      ensures false
    {
      NoFreeHeadInside(s, live, {}, Block(owned, live[owned]), o, slot);
    }
  }

  lemma PlacedIsBelow(s: Buddy, start: nat, align: nat)
    requires Placing(s, start, align)
    ensures !Listed(s.lists, start)
  {
    forall o, x | 0 <= o < |s.lists| && x in s.lists[o]
      ensures x < start
    {
      assert Block(x, o) in FreeBlocks(s.lists);
    }
  }

  /** The block that will be popped is free; once it is off its list it is held. */
  lemma PopTurn(s: Buddy, live: map<nat, nat>, order: nat)
    requires Valid(s, live) && order <= MAX_ORDER && s.lists[order] != []
    ensures Mid(RemoveFree(s, s.lists[order][0], order), live, {Block(s.lists[order][0], order)})
  {
    var b := Block(s.lists[order][0], order);
    assert b in FreeBlocks(s.lists);
    Acquire(s, live, {}, b);
    assert {} + {b} == {b};
  }

  /** When the merge loop goes on, the buddy is on the list it will be taken off. */
  lemma MergeTurn(s: Buddy, live: map<nat, nat>, curr: nat, o: nat)
    requires Mid(s, live, {Block(curr, o)}) && o < MAX_ORDER
    requires var buddy := Xor(curr, Pow2(o)); buddy < s.total && !s.heads[buddy] && s.orderByte[buddy] == o
    ensures var buddy := Xor(curr, Pow2(o));
      && buddy in s.lists[o]
      && Mid(RemoveFree(s, buddy, o), live, {Block(if buddy < curr then buddy else curr, o + 1)})
  {
    var b := Block(curr, o);
    assert b in AllBlocks(s, live, {b});
    BuddyIsXor(b);
    BuddyByteIsAFreeHead(s, live, b);
    MergeOnce(s, live, b);
  }

  class BuddyAllocator {
    const totalSlots: nat
    /** The list objects; list `o` holds the free blocks of order `o`. */
    var ends: seq<Ends>
    /** The one bits of the order word. */
    var freeBitmap: set<nat>
    /** One bit per slot, set for the first slot of each allocated block. */
    const headBits: array<bool>
    /** Slot memory, as free nodes see it. */
    const memory: array<Cell>

    /** What the links in memory spell out: free list `o`, front first. */
    ghost var freeLists: Lists
    /** The blocks clients own, by first slot. */
    ghost var live: map<nat, nat>

    ghost function View(): Buddy
      reads this, headBits, memory
    {
      Buddy(totalSlots, freeLists, freeBitmap, headBits[..], Orders(memory[..]))
    }

    /** The arrays have the right size, and the links in memory spell out the free lists. */
    ghost predicate Threads()
      reads this, headBits, memory
    {
      && headBits.Length == totalSlots && memory.Length == totalSlots && |freeLists| == MAX_ORDER + 1
      && Threaded(memory[..], ends, freeLists)
    }

    ghost predicate Ready()
      reads this, headBits, memory
    {
      Threads() && Valid(View(), live)
    }

    /** The slots may hold anything to begin with. */
    constructor (totalSlots: nat, contents: nat -> Cell)
      ensures Ready() && fresh(headBits) && fresh(memory)
      ensures this.totalSlots == totalSlots && live == map[]
    {
      this.totalSlots := totalSlots;
      this.ends := seq(MAX_ORDER + 1, _ => NO_LIST);
      this.freeBitmap := {};
      this.headBits := new bool[totalSlots](_ => false);
      this.memory := new Cell[totalSlots](contents);
      this.freeLists := seq(MAX_ORDER + 1, _ => []);
      this.live := map[];
      new;
      NothingPlaced(View());
      InitFreeBlocks();
    }

    /** Strip off the largest block that fits until nothing is left. */
    method InitFreeBlocks()
      requires Threads() && Placing(View(), 0, MAX_ORDER) && live == map[]
      modifies this`ends, this`freeLists, this`freeBitmap, memory
      ensures Ready()
    {
      var start: nat, remaining: nat := 0, totalSlots;
      ghost var align: nat := MAX_ORDER;
      while remaining > 0
        invariant start + remaining == totalSlots
        invariant Threads() && Placing(View(), start, align)
      {
        var order, size := PlaceLargest(start, remaining, align);
        start, remaining, align := start + size, remaining - size, order;
      }
      PlacingDone(View(), align);
    }

    /** The order and size of the largest block that fits. */
    method LargestOrder(remaining: nat) returns (order: nat, size: nat)
      requires remaining > 0
      ensures Fits(remaining, order) && size == Pow2(order) && 0 < size <= remaining
    {
      order := FittingOrder(remaining);
      size := Pow2(order);
    }

    method PlaceLargest(start: nat, remaining: nat, ghost align: nat) returns (order: nat, size: nat)
      requires Threads() && start + remaining == totalSlots && remaining > 0 && Placing(View(), start, align)
      modifies this`ends, this`freeLists, this`freeBitmap, memory
      ensures 0 < size <= remaining && Threads() && Placing(View(), start + size, order)
    {
      order, size := LargestOrder(remaining);
      PlaceBlock(start, order, size, align);
    }

    method PlaceBlock(start: nat, order: nat, size: nat, ghost align: nat)
      requires Threads() && start < totalSlots && Placing(View(), start, align)
      requires Fits(totalSlots - start, order) && size == Pow2(order)
      modifies this`ends, this`freeLists, this`freeBitmap, memory
      ensures Threads() && Placing(View(), start + size, order)
    {
      PlacedIsBelow(View(), start, align);
      PlaceNext(View(), start, align, order, AddFree(View(), start, order));
      AddToFreeList(start, order);
    }

    /** Makes a slot a free node and puts it in front of its list. Since the link is made anew, the push is
        never refused, whatever a client left there. */
    method AddToFreeList(index: nat, order: nat)
      requires Threads() && index < totalSlots && order <= MAX_ORDER && !Listed(freeLists, index)
      modifies this`ends, this`freeLists, this`freeBitmap, memory
      ensures Threads() && View() == AddFree(old(View()), index, order)
    {
      var node := Cell(None, None, false, order);
      WriteOutside(memory[..], ends, freeLists, index, node);
      memory[index] := node;
      ghost var cells := memory[..];
      assert cells == old(memory[..])[index := node];
      HeadIsOutside(cells, ends, freeLists, order, index);
      var ok, list := PushFront(memory, ends[order], index);
      assert ok;
      PushThreads(cells, ends, freeLists, order, index, memory[..], ends[order := list]);
      ends := ends[order := list];
      freeLists := freeLists[order := [index] + freeLists[order]];
      freeBitmap := freeBitmap + {order};
      assert Orders(memory[..]) == Orders(old(memory[..]))[index := order];
    }

    method RemoveFromFreeList(index: nat, order: nat)
      requires Threads() && order <= MAX_ORDER && index in freeLists[order]
      modifies this`ends, this`freeLists, this`freeBitmap, memory
      ensures Threads() && View() == RemoveFree(old(View()), index, order)
    {
      ghost var i :| 0 <= i < |freeLists[order]| && freeLists[order][i] == index;
      assert ListOk(memory[..], ends[order], freeLists[order]);
      Neighbours(memory[..], ends[order], freeLists[order], i);
      var list := Unlink(memory, ends[order], index);
      Taken(old(memory[..]), order, i, list);
      ends := ends[order := list];
      if ends[order].head.None? {
        freeBitmap := freeBitmap - {order};
      }
    }

    /** Takes the first block off a list. */
    method TakeFirst(order: nat) returns (index: nat)
      requires Threads() && order <= MAX_ORDER && freeLists[order] != []
      modifies this`ends, this`freeLists, this`freeBitmap, memory
      ensures Threads() && index == old(freeLists)[order][0] && View() == RemoveFree(old(View()), index, order)
    {
      assert ListOk(memory[..], ends[order], freeLists[order]);
      Neighbours(memory[..], ends[order], freeLists[order], 0);
      var list;
      index, list := PopFront(memory, ends[order]);
      Taken(old(memory[..]), order, 0, list);
      ends := ends[order := list];
      if ends[order].head.None? {
        freeBitmap := freeBitmap - {order};
      }
    }

    /** The ghost side of taking a node off: the list object and memory are as unlinking leaves them. */
    ghost method Taken(cells: seq<Cell>, order: nat, i: nat, list: Ends)
      requires headBits.Length == totalSlots && memory.Length == totalSlots && |freeLists| == MAX_ORDER + 1
      requires Threaded(cells, ends, freeLists) && order <= MAX_ORDER && i < |freeLists[order]|
      requires |cells| == totalSlots && freeLists[order][i] < |cells|
      requires Unlinked(cells, ends[order], freeLists[order][i], memory[..], list)
      modifies this`freeLists
      ensures |freeLists| == MAX_ORDER + 1 && Threaded(memory[..], ends[order := list], freeLists)
      ensures freeLists == old(freeLists)[order := Without(old(freeLists)[order], old(freeLists)[order][i])]
      ensures Orders(memory[..]) == Orders(cells)
      ensures list.head.None? <==> freeLists[order] == []
    {
      UnlinkThreads(cells, ends, freeLists, order, i, memory[..], ends[order := list]);
      assert ListOk(cells, ends[order], freeLists[order]);
      WithoutIsRemoveAt(freeLists[order], i);
      freeLists := freeLists[order := RemoveAt(freeLists[order], i)];
      assert ListOk(memory[..], list, freeLists[order]);
    }

    /** The split loop: hand back upper halves until a block of order `order` is left. */
    method SplitDown(index: nat, found: nat, order: nat)
      requires Threads() && order <= found <= MAX_ORDER && index + Pow2(found) <= totalSlots
      requires ClearOf(freeLists, index, index + Pow2(found))
      modifies this`ends, this`freeLists, this`freeBitmap, memory
      ensures Threads() && View() == Split(old(View()), index, found, order)
    {
      var curr := found;
      while curr > order
        invariant Threads() && order <= curr <= found && index + Pow2(curr) <= totalSlots
        invariant ClearOf(freeLists, index, index + Pow2(curr))
        invariant Split(View(), index, curr, order) == Split(old(View()), index, found, order)
      {
        curr := curr - 1;
        AddToFreeList(index + Pow2(curr), curr);
      }
    }

    /** One turn of the merge loop: stops, or takes the buddy off its list and goes on with the parent. */
    method MergeStep(curr: nat, o: nat) returns (go: bool, curr': nat, o': nat)
      requires Threads() && curr < totalSlots && o < MAX_ORDER && Mid(View(), live, {Block(curr, o)})
      modifies this`ends, this`freeLists, this`freeBitmap, memory
      ensures Threads() && curr' < totalSlots && o' == (if go then o + 1 else o) && Mid(View(), live, {Block(curr', o')})
      ensures Merge(View(), curr', o') == Merge(old(View()), curr, o)
      ensures !go ==> Merge(View(), curr', o') == AddFree(View(), curr', o')
    {
      go, curr', o' := false, curr, o;
      var buddy := Xor(curr, Pow2(o));
      if buddy >= totalSlots || headBits[buddy] {
        return;
      }
      if memory[buddy].order != o {
        return;
      }
      MergeTurn(View(), live, curr, o);
      RemoveFromFreeList(buddy, o);
      if buddy < curr {
        curr' := buddy;
      }
      go, o' := true, o + 1;
    }

    /** The merge loop: join with free buddies of equal order, then put the result on its list. */
    method MergeUp(index: nat, order: nat)
      requires Threads() && index < totalSlots && order <= MAX_ORDER && Mid(View(), live, {Block(index, order)})
      modifies this`ends, this`freeLists, this`freeBitmap, memory
      ensures Threads() && View() == Merge(old(View()), index, order)
    {
      var curr: nat, o: nat := index, order;
      var go := true;
      while go && o < MAX_ORDER
        invariant Threads() && o <= MAX_ORDER && curr < totalSlots && Mid(View(), live, {Block(curr, o)})
        invariant Merge(View(), curr, o) == Merge(old(View()), index, order)
        invariant !go || o == MAX_ORDER ==> Merge(View(), curr, o) == AddFree(View(), curr, o)
        decreases MAX_ORDER - o, go
      {
        go, curr, o := MergeStep(curr, o);
      }
      HeldIsClear(View(), live, curr, o);
      AddToFreeList(curr, o);
    }

    /** Allocates `2^order` slots. It refuses exactly when no aligned run of that length is
        wholly free; otherwise the block returned is such a run, the front of a best fit, and it alone becomes live. */
    method Allocate(order: nat) returns (r: Option<nat>)
      requires Ready()
      modifies this, headBits, memory
      ensures Ready()
      ensures View() == Alloc(old(View()), order).0 && r == Alloc(old(View()), order).1
      ensures r.None? <==>
        (order > MAX_ORDER || forall start: nat :: !FreeRun(old(live), totalSlots, Block(start, order)))
      ensures r.None? ==> live == old(live)
      ensures r.Some? ==> FreeRun(old(live), totalSlots, Block(r.value, order)) && live == old(live)[r.value := order]
      ensures r.Some? ==> FrontOfBestFit(old(View()).lists, order, r.value)
    {
      ghost var s0 := View();
      AllocKeeps(s0, live, order);
      AllocIsComplete(s0, live, order);
      AllocIsBestFit(s0, live, order);
      if order > MAX_ORDER {
        return None;
      }
      var found := LowestFrom(freeBitmap, order);
      if found.None? {
        return None;
      }
      PopTurn(s0, live, found.value);
      var index := TakeFirst(found.value);
      HeldIsClear(View(), live, index, found.value);
      SplitDown(index, found.value, order);
      headBits[index] := true;
      live := live[index := order];
      r := Some(index);
    }

    /** Frees a block. The index may be anything; a block that is live must be freed with the
        order it was allocated with. */
    method Deallocate(index: nat, order: nat) returns (r: FreeResult)
      requires Ready()
      requires index in live ==> order == live[index]
      modifies this, headBits, memory
      ensures Ready()
      ensures index in old(live) ==> order <= MAX_ORDER
      ensures View() == Dealloc(old(View()), index, order).0 && r == Dealloc(old(View()), index, order).1
      ensures r == Freed <==> index in old(live)
      ensures r == InvalidFree <==> index >= totalSlots
      ensures live == old(live) - {index}
    {
      ghost var s0 := View();
      DeallocKeeps(s0, live, index, order);
      if index >= totalSlots {
        return InvalidFree;
      }
      if !headBits[index] {
        return DoubleFree;
      }
      MarkDead(s0, live, index);
      headBits[index] := false;
      live := live - {index};
      MergeUp(index, order);
      r := Freed;
    }

    /** A client stores anything at all into a slot of a block it owns. */
    method ClientWrite(ghost owned: nat, slot: nat, value: Cell)
      requires Ready() && owned in live && Covers(Block(owned, live[owned]), slot)
      requires slot < totalSlots
      modifies memory
      ensures Ready() && memory[slot] == value
      ensures FreeBlocks(freeLists) == old(FreeBlocks(freeLists))
    {
      ClientWriteKeeps(View(), live, owned, slot, value.order);
      LiveIsUnlisted(View(), live, owned, slot);
      WriteOutside(memory[..], ends, freeLists, slot, value);
      ghost var s0 := View();
      memory[slot] := value;
      assert memory[..] == old(memory[..])[slot := value];
      assert Orders(memory[..]) == s0.orderByte[slot := value.order];
    }
  }
}
