/** The timing wheel object: slot map, slot heads and clock updated in place. */
module TimingWheel {
  import opened Bits
  import opened Prelude
  import opened WheelSpec

  class Wheel<T> {
    var tasks: Tasks<T>
    /** Slot heads of the two levels. */
    var heads: Heads
    var globalTick: nat
    var nextKey: Key
    const l0Capacity: nat
    const l1Count: nat
    const l1TickRatio: nat

    /** The slot counts are `2^bits0` and `2^bits1`. */
    ghost const bits0: nat
    ghost const bits1: nat
    /** The list each slot head stands for. */
    ghost var chains: Chains
    /** Every key ever inserted, every key delivered so far in order, every key cancelled. */
    ghost var inserted: map<Key, Due<T>>
    ghost var delivered: seq<Key>
    ghost var cancelled: set<Key>

    ghost predicate Config() {
      l0Capacity == Pow2(bits0) && l1Count == Pow2(bits1) && l1TickRatio >= 1
    }

    ghost predicate Shape()
      reads this
    {
      Config() && |heads| == 2 && |heads[0]| == l0Capacity && |heads[1]| == l1Count
    }

    ghost predicate Timed(k: Key)
      reads this
      requires Config() && k in tasks
    {
      TimedOk(tasks[k], globalTick, l0Capacity, l1TickRatio, l1Count)
    }

    /** Whole-run accounting. */
    ghost predicate Accounted()
      reads this
    {
      Books(inserted, delivered, cancelled, Pending(tasks), globalTick, l1TickRatio <= l0Capacity)
    }

    ghost predicate Valid()
      reads this
    {
      && Shape()
      && Linked(tasks, heads, chains, [])
      && (forall k :: k in tasks ==> k < nextKey && Timed(k))
      && (forall k :: k in inserted ==> k < nextKey)
      && Accounted()
    }

    constructor (ghost bits0: nat, ghost bits1: nat, l0Count: nat, l1Count: nat, ratio: nat)
      requires l0Count == Pow2(bits0) && l1Count == Pow2(bits1) && ratio >= 1
      ensures Valid() && Pending(tasks) == map[] && globalTick == 0 && inserted == map[] && delivered == []
      ensures l0Capacity == l0Count && this.l1Count == l1Count && l1TickRatio == ratio
    {
      tasks := map[];
      heads := [seq(l0Count, _ => None), seq(l1Count, _ => None)];
      globalTick, nextKey := 0, 0;
      l0Capacity, this.l1Count, l1TickRatio := l0Count, l1Count, ratio;
      this.bits0, this.bits1 := bits0, bits1;
      chains := [seq(l0Count, _ => []), seq(l1Count, _ => [])];
      inserted, delivered, cancelled := map[], [], {};
    }

    /** The L0 slot of a tick, by mask. */
    function L0Index(tick: nat): (slot: nat)
      requires Config()
      ensures slot == tick % l0Capacity && slot < l0Capacity
    {
      AndMask(tick, bits0);
      And(tick, l0Capacity - 1)
    }

    /** The L1 slot of a tick, by mask. */
    function L1Index(tick: nat): (slot: nat)
      requires Config()
      ensures slot == (tick / l1TickRatio) % l1Count && slot < l1Count
    {
      AndMask(tick / l1TickRatio, bits1);
      And(tick / l1TickRatio, l1Count - 1)
    }

    function DetermineLocation(deadline: nat): (r: (nat, nat))
      requires Shape() && globalTick <= deadline
      reads this
      ensures r == Location(deadline, globalTick, l0Capacity, l1TickRatio, l1Count)
      ensures ValidSlot(heads, r.0, r.1)
    {
      if deadline - globalTick < l0Capacity then (0, L0Index(deadline)) else (1, L1Index(deadline))
    }

    /** Puts the first detached key at the front of a slot's list. */
    method Link(key: Key, level: nat, slot: nat, ghost rest: seq<Key>)
      requires Linked(tasks, heads, chains, rest) && rest != [] && rest[0] == key && ListOk(tasks, Some(key), rest)
      requires ValidSlot(heads, level, slot)
      modifies this`tasks, this`heads, this`chains
      ensures Linked(tasks, heads, chains, rest[1..])
      ensures ListOk(tasks, old(tasks)[key].next, rest[1..])
      ensures key in tasks && tasks == old(tasks)[key := tasks[key]]
      ensures tasks[key] == old(tasks)[key].(next := old(heads)[level][slot], level := level, slotIndex := slot)
      ensures |heads| == 2 && |heads[0]| == |old(heads)[0]| && |heads[1]| == |old(heads)[1]|
    {
      var oldHead := heads[level][slot];
      ghost var tasks0, heads0, chains0 := tasks, heads, chains;
      tasks := tasks[key := tasks[key].(next := oldHead, level := level, slotIndex := slot)];
      heads := heads[level := heads[level][slot := Some(key)]];
      chains := chains[level := chains[level][slot := [key] + chains[level][slot]]];
      LinkFirst(tasks0, heads0, chains0, rest, level, slot, tasks, heads, chains);
    }

    /** Puts a new entry in the slot of its deadline. */
    method AddEntry(key: Key, item: T, deadline: nat)
      requires Shape() && Linked(tasks, heads, chains, []) && key !in tasks && globalTick < deadline
      modifies this`tasks, this`heads, this`chains
      ensures Shape() && Linked(tasks, heads, chains, [])
      ensures key in tasks && tasks == old(tasks)[key := tasks[key]] && Timed(key)
      ensures Pending(tasks) == old(Pending(tasks))[key := Due(deadline, item)]
    {
      var (level, slot) := DetermineLocation(deadline);
      ghost var tasks0 := tasks;
      tasks := tasks[key := Entry(Some(item), deadline, None, level, slot)];
      NewKeyIsLoose(tasks0, heads, chains, key, tasks);
      Link(key, level, slot, [key]);
      assert [key][1..] == [];
      PendingInsert(tasks0, tasks, key);
      PlacedOnTime(tasks[key], globalTick, l0Capacity, l1TickRatio, l1Count);
    }

    /** Inserts an item to be delivered `ticks` ticks from now (at least one). */
    method Insert(item: T, ticks: nat) returns (key: Key)
      requires Valid()
      modifies this
      ensures Valid() && globalTick == old(globalTick)
      ensures key !in old(inserted)
      ensures var due := Due(globalTick + (if ticks >= 1 then ticks else 1), item);
        && inserted == old(inserted)[key := due]
        && Pending(tasks) == old(Pending(tasks))[key := due]
      ensures delivered == old(delivered) && cancelled == old(cancelled)
    {
      var deadline := globalTick + (if ticks >= 1 then ticks else 1);
      key := nextKey;
      nextKey := nextKey + 1;
      AddEntry(key, item, deadline);
      BookInsert(inserted, delivered, cancelled, old(Pending(tasks)), globalTick, l1TickRatio <= l0Capacity, key, Due(deadline, item));
      inserted := inserted[key := Due(deadline, item)];
    }

    /** Takes the item out and leaves the entry behind. */
    method Cancel(key: Key) returns (item: Option<T>)
      requires Valid()
      modifies this
      ensures Valid() && globalTick == old(globalTick) && inserted == old(inserted) && delivered == old(delivered)
      ensures item == if key in old(Pending(tasks)) then Some(old(Pending(tasks))[key].item) else None
      ensures Pending(tasks) == old(Pending(tasks)) - {key}
    {
      ghost var tasks0 := tasks;
      if key !in tasks || tasks[key].item.None? {
        assert key !in Pending(tasks);
        return None;
      }
      item := tasks[key].item;
      assert Pending(tasks)[key].item == item.value;
      tasks := tasks[key := tasks[key].(item := None)];
      ItemsDoNotLink(tasks0, heads, chains, key, tasks);
      PendingCancel(tasks0, tasks, key);
      BookCancel(inserted, delivered, cancelled, Pending(tasks0), globalTick, l1TickRatio <= l0Capacity, key);
      cancelled := cancelled + {key};
    }

    /** Removes every entry of a detached list, handing over the uncancelled items in list order. */
    method DrainList(head: Key, ghost list: seq<Key>) returns (out: seq<T>, ghost fired: seq<Key>)
      requires Linked(tasks, heads, chains, list) && ListOk(tasks, Some(head), list)
      modifies this`tasks
      ensures Linked(tasks, heads, chains, [])
      ensures tasks == Minus(old(tasks), list)
      ensures Ledger(old(tasks), tasks, fired, out) && fired == Uncancelled(old(tasks), list)
    {
      out, fired := [], [];
      var current: Option<Key> := Some(head);
      ghost var rest := list;
      while current.Some?
        invariant Linked(tasks, heads, chains, rest) && ListOk(tasks, current, rest)
        invariant Draining(old(tasks), list, tasks, rest, fired) && Ledger(old(tasks), tasks, fired, out)
        invariant ListOrder(old(tasks), list, rest, fired)
        decreases |rest|
      {
        var key := current.value;
        var entry := tasks[key];
        ghost var tasks0, fired0, out0 := tasks, fired, out;
        tasks := tasks - {key};
        if entry.item.Some? {
          out, fired := out + [entry.item.value], fired + [key];
        }
        RemoveFirst(tasks0, heads, chains, rest, tasks);
        DropFirst(old(tasks), fired0, out0, tasks0, key, fired, out);
        DrainStep(old(tasks), list, tasks0, rest, fired0, fired);
        ListOrderStep(old(tasks), list, tasks0, rest, fired0, fired);
        current, rest := entry.next, rest[1..];
      }
      Drained(old(tasks), list, tasks, fired);
      ListOrderEnds(old(tasks), list, fired);
    }

    /** Takes one L0 slot and drains it: the entries that named it are gone, the others untouched. */
    method ExpireSlot(slot: nat) returns (out: seq<T>, ghost fired: seq<Key>)
      requires Linked(tasks, heads, chains, []) && ValidSlot(heads, 0, slot)
      modifies this`tasks, this`heads, this`chains
      ensures Linked(tasks, heads, chains, [])
      ensures |heads| == 2 && |heads[0]| == |old(heads)[0]| && heads[1] == old(heads)[1] && chains[1] == old(chains)[1]
      ensures SlotGone(old(tasks), tasks, slot) && Ledger(old(tasks), tasks, fired, out)
    {
      out, fired := [], [];
      ChainMembers(tasks, heads, chains, 0, slot);
      assert ChainOk(tasks, heads, chains, [], 0, slot);
      var head := heads[0][slot];
      if head.Some? {
        ghost var heads0, chains0 := heads, chains;
        heads := heads[0 := heads[0][slot := None]];
        chains := chains[0 := chains[0][slot := []]];
        TakeSlot(tasks, heads0, chains0, 0, slot, heads, chains);
        out, fired := DrainList(head.value, chains0[0][slot]);
      }
    }

    /** A step that covers a whole turn empties every L0 slot. */
    method ExpireAll(step: nat) returns (out: seq<T>, ghost fired: seq<Key>)
      requires Shape() && Linked(tasks, heads, chains, []) && step >= l0Capacity
      requires AllTimed(tasks, globalTick, l0Capacity, l1TickRatio, l1Count)
      modifies this`tasks, this`heads, this`chains
      ensures Shape() && Linked(tasks, heads, chains, [])
      ensures CutByTick(old(tasks), tasks, globalTick + step) && Ledger(old(tasks), tasks, fired, out)
      ensures globalTick % l0Capacity == 0 ==> Orderly(Pending(old(tasks)), fired, globalTick, globalTick + step)
    {
      out, fired := [], [];
      for i := 0 to l0Capacity
        invariant Shape() && Linked(tasks, heads, chains, [])
        invariant CutBySlot(old(tasks), tasks, i) && Ledger(old(tasks), tasks, fired, out)
        invariant globalTick % l0Capacity == 0 ==> Orderly(Pending(old(tasks)), fired, globalTick, globalTick + i - 1)
      {
        out, fired := ExpireNext(i, old(tasks), out, fired);
      }
      CutAllSlots(old(tasks), tasks, globalTick, step, l0Capacity, l1TickRatio, l1Count);
    }

    /** The body of that loop, for slot `i`; `start` is what the loop began with. */
    method ExpireNext(i: nat, ghost start: Tasks<T>, out: seq<T>, ghost fired: seq<Key>)
      returns (out': seq<T>, ghost fired': seq<Key>)
      requires Shape() && Linked(tasks, heads, chains, []) && i < l0Capacity
      requires AllTimed(start, globalTick, l0Capacity, l1TickRatio, l1Count)
      requires CutBySlot(start, tasks, i) && Ledger(start, tasks, fired, out)
      requires globalTick % l0Capacity == 0 ==> Orderly(Pending(start), fired, globalTick, globalTick + i - 1)
      modifies this`tasks, this`heads, this`chains
      ensures Shape() && Linked(tasks, heads, chains, [])
      ensures CutBySlot(start, tasks, i + 1) && Ledger(start, tasks, fired', out')
      ensures globalTick % l0Capacity == 0 ==> Orderly(Pending(start), fired', globalTick, globalTick + i)
    {
      ghost var tasks0 := tasks;
      var o, f := ExpireSlot(i);
      CutNextSlot(start, tasks0, tasks, i);
      LedgerTrans(start, tasks0, fired, out, tasks, f, o);
      if globalTick % l0Capacity == 0 {
        SlotInOrder(start, tasks0, tasks, i, globalTick, l0Capacity, l1TickRatio, l1Count, fired, out, f, o);
      }
      out', fired' := out + o, fired + f;
    }

    /** A shorter step empties the L0 slot of each tick it passes. */
    method ExpireTicks(step: nat) returns (out: seq<T>, ghost fired: seq<Key>)
      requires Shape() && Linked(tasks, heads, chains, []) && step < l0Capacity
      requires AllTimed(tasks, globalTick, l0Capacity, l1TickRatio, l1Count)
      modifies this`tasks, this`heads, this`chains
      ensures Shape() && Linked(tasks, heads, chains, [])
      ensures CutByTick(old(tasks), tasks, globalTick + step) && Ledger(old(tasks), tasks, fired, out)
      ensures Orderly(Pending(old(tasks)), fired, globalTick, globalTick + step)
    {
      out, fired := [], [];
      NothingCutYet(tasks, globalTick, l0Capacity, l1TickRatio, l1Count);
      for i := 1 to step + 1
        invariant Shape() && Linked(tasks, heads, chains, [])
        invariant CutByTick(old(tasks), tasks, globalTick + i - 1) && Ledger(old(tasks), tasks, fired, out)
        invariant Orderly(Pending(old(tasks)), fired, globalTick, globalTick + i - 1)
      {
        out, fired := ExpireTick(i, old(tasks), out, fired);
      }
    }

    /** The body of that loop, for the tick `i` from now; `start` is what the loop began with. */
    method ExpireTick(i: nat, ghost start: Tasks<T>, out: seq<T>, ghost fired: seq<Key>)
      returns (out': seq<T>, ghost fired': seq<Key>)
      requires Shape() && Linked(tasks, heads, chains, []) && 1 <= i < l0Capacity
      requires AllTimed(start, globalTick, l0Capacity, l1TickRatio, l1Count)
      requires CutByTick(start, tasks, globalTick + i - 1) && Ledger(start, tasks, fired, out)
      requires Orderly(Pending(start), fired, globalTick, globalTick + i - 1)
      modifies this`tasks, this`heads, this`chains
      ensures Shape() && Linked(tasks, heads, chains, [])
      ensures CutByTick(start, tasks, globalTick + i) && Ledger(start, tasks, fired', out')
      ensures Orderly(Pending(start), fired', globalTick, globalTick + i)
    {
      ghost var tasks0 := tasks;
      var o, f := ExpireSlot(L0Index(globalTick + i));
      CutNextTick(start, tasks0, tasks, globalTick, i, l0Capacity, l1TickRatio, l1Count);
      LedgerTrans(start, tasks0, fired, out, tasks, f, o);
      TickInOrder(start, tasks0, tasks, globalTick, globalTick + i - 1, fired, out, f, o);
      out', fired' := out + o, fired + f;
    }

    /** Empties the L0 slots a step passes. */
    method ExpireL0(step: nat) returns (out: seq<T>, ghost fired: seq<Key>)
      requires Shape() && Linked(tasks, heads, chains, [])
      requires AllTimed(tasks, globalTick, l0Capacity, l1TickRatio, l1Count)
      modifies this`tasks, this`heads, this`chains
      ensures Shape() && Linked(tasks, heads, chains, [])
      ensures CutByTick(old(tasks), tasks, globalTick + step) && DueLedger(old(tasks), tasks, fired, out, globalTick + step)
      ensures l1TickRatio <= l0Capacity && step <= l1TickRatio - globalTick % l1TickRatio ==>
        Orderly(Pending(old(tasks)), fired, globalTick, globalTick + step)
    {
      if step >= l0Capacity {
        out, fired := ExpireAll(step);
        if l1TickRatio <= l0Capacity && step <= l1TickRatio - globalTick % l1TickRatio {
          WholeTurnStarts(globalTick, step, l0Capacity, l1TickRatio);
        }
      } else {
        out, fired := ExpireTicks(step);
      }
      CutIsDue(old(tasks), tasks, globalTick + step, fired, out);
    }

    /** Walks a detached L1 list: cancelled entries are dropped, due ones delivered, the others
        linked where their deadline now belongs. */
    method CascadeList(head: Key, ghost list: seq<Key>) returns (out: seq<T>, ghost fired: seq<Key>)
      requires Shape() && Linked(tasks, heads, chains, list) && ListOk(tasks, Some(head), list)
      modifies this`tasks, this`heads, this`chains
      ensures Shape() && Linked(tasks, heads, chains, [])
      ensures Cascading(old(tasks), list, tasks, [], globalTick, l0Capacity, l1TickRatio, l1Count)
      ensures Ledger(old(tasks), tasks, fired, out)
    {
      out, fired := [], [];
      var current: Option<Key> := Some(head);
      ghost var rest := list;
      while current.Some?
        invariant Shape() && Linked(tasks, heads, chains, rest) && ListOk(tasks, current, rest)
        invariant Cascading(old(tasks), list, tasks, rest, globalTick, l0Capacity, l1TickRatio, l1Count)
        invariant Ledger(old(tasks), tasks, fired, out)
        decreases |rest|
      {
        var key := current.value;
        var entry := tasks[key];
        ghost var tasks0, fired0, out0 := tasks, fired, out;
        if entry.item.None? || entry.deadline <= globalTick {
          tasks := tasks - {key};
          if entry.item.Some? {
            out, fired := out + [entry.item.value], fired + [key];
          }
          RemoveFirst(tasks0, heads, chains, rest, tasks);
          DropFirst(old(tasks), fired0, out0, tasks0, key, fired, out);
        } else {
          var (level, slot) := DetermineLocation(entry.deadline);
          Link(key, level, slot, rest);
          RelinkKeepsPending(tasks0, tasks, key);
        }
        CascadeStep(old(tasks), list, tasks0, rest, tasks, globalTick, l0Capacity, l1TickRatio, l1Count);
        current, rest := entry.next, rest[1..];
      }
    }

    /** The cascade, at a cascade point: the L1 slot of the current tick is taken and redistributed. */
    method Cascade() returns (out: seq<T>, ghost fired: seq<Key>)
      requires Shape() && Linked(tasks, heads, chains, [])
      requires forall k :: k in tasks ==> Timed(k) || (tasks[k].level == 1 && tasks[k].slotIndex == L1Index(globalTick))
      modifies this`tasks, this`heads, this`chains
      ensures Shape() && Linked(tasks, heads, chains, [])
      ensures AllTimed(tasks, globalTick, l0Capacity, l1TickRatio, l1Count)
      ensures DueLedger(old(tasks), tasks, fired, out, globalTick) && tasks.Keys <= old(tasks).Keys
    {
      out, fired := [], [];
      var slot := L1Index(globalTick);
      ChainMembers(tasks, heads, chains, 1, slot);
      assert ChainOk(tasks, heads, chains, [], 1, slot);
      var head := heads[1][slot];
      if head.Some? {
        ghost var heads0, chains0 := heads, chains;
        heads := heads[1 := heads[1][slot := None]];
        chains := chains[1 := chains[1][slot := []]];
        TakeSlot(tasks, heads0, chains0, 1, slot, heads, chains);
        out, fired := CascadeList(head.value, chains0[1][slot]);
        TimedAfterCascade(old(tasks), chains0[1][slot], tasks, globalTick, l0Capacity, l1TickRatio, l1Count);
        CascadeIsDue(old(tasks), chains0[1][slot], tasks, globalTick, l0Capacity, l1TickRatio, l1Count, fired, out);
      }
    }

    /** One jump: at most to the next cascade point. */
    method AdvanceStep(step: nat) returns (out: seq<T>, ghost fired: seq<Key>)
      requires Shape() && Linked(tasks, heads, chains, [])
      requires AllTimed(tasks, globalTick, l0Capacity, l1TickRatio, l1Count)
      requires 1 <= step <= l1TickRatio - globalTick % l1TickRatio
      modifies this`tasks, this`heads, this`chains, this`globalTick
      ensures Shape() && Linked(tasks, heads, chains, []) && globalTick == old(globalTick) + step
      ensures AllTimed(tasks, globalTick, l0Capacity, l1TickRatio, l1Count)
      ensures DueLedger(old(tasks), tasks, fired, out, globalTick) && tasks.Keys <= old(tasks).Keys
      ensures globalTick % l1TickRatio != 0 ==> CutByTick(old(tasks), tasks, globalTick)
      ensures l1TickRatio <= l0Capacity ==> Orderly(Pending(old(tasks)), fired, old(globalTick), globalTick)
    {
      out, fired := ExpireL0(step);
      TimedAfterCut(old(tasks), tasks, globalTick, step, l0Capacity, l1TickRatio, l1Count);
      globalTick := globalTick + step;
      if globalTick % l1TickRatio == 0 {
        out, fired := CascadeAfter(step, old(tasks), out, fired);
      }
    }

    /** The cascade that ends a jump of `step` ticks, which began with `start` and has delivered `fired`. */
    method CascadeAfter(ghost step: nat, ghost start: Tasks<T>, out: seq<T>, ghost fired: seq<Key>)
      returns (out': seq<T>, ghost fired': seq<Key>)
      requires Shape() && Linked(tasks, heads, chains, []) && tasks.Keys <= start.Keys
      requires forall k :: k in tasks ==> Timed(k) || (tasks[k].level == 1 && tasks[k].slotIndex == L1Index(globalTick))
      requires step <= globalTick && step <= l1TickRatio - (globalTick - step) % l1TickRatio
      requires AllTimed(start, globalTick - step, l0Capacity, l1TickRatio, l1Count) && CutByTick(start, tasks, globalTick)
      requires DueLedger(start, tasks, fired, out, globalTick)
      requires l1TickRatio <= l0Capacity ==> Orderly(Pending(start), fired, globalTick - step, globalTick)
      modifies this`tasks, this`heads, this`chains
      ensures Shape() && Linked(tasks, heads, chains, []) && AllTimed(tasks, globalTick, l0Capacity, l1TickRatio, l1Count)
      ensures DueLedger(start, tasks, fired', out', globalTick) && tasks.Keys <= start.Keys
      ensures l1TickRatio <= l0Capacity ==> Orderly(Pending(start), fired', globalTick - step, globalTick)
    {
      ghost var tasks0 := tasks;
      LevelsAreTwo(tasks, heads, chains);
      var o, f := Cascade();
      DueLedgerTrans(start, tasks0, fired, out, globalTick, tasks, f, o, globalTick);
      if l1TickRatio <= l0Capacity {
        CascadeInOrder(start, tasks0, tasks, globalTick - step, step, l0Capacity, l1TickRatio, l1Count, fired, out, f, o);
      }
      out', fired' := out + o, fired + f;
    }

    /** The loop of an advance: jumps until no tick remains. */
    method Turn(ticks: nat) returns (out: seq<T>, ghost fired: seq<Key>)
      requires Shape() && Linked(tasks, heads, chains, [])
      requires AllTimed(tasks, globalTick, l0Capacity, l1TickRatio, l1Count)
      modifies this`tasks, this`heads, this`chains, this`globalTick
      ensures Shape() && Linked(tasks, heads, chains, []) && globalTick == old(globalTick) + ticks
      ensures AllTimed(tasks, globalTick, l0Capacity, l1TickRatio, l1Count)
      ensures DueLedger(old(tasks), tasks, fired, out, globalTick) && tasks.Keys <= old(tasks).Keys
      ensures old(globalTick) / l1TickRatio == globalTick / l1TickRatio ==> CutByTick(old(tasks), tasks, globalTick)
      ensures l1TickRatio <= l0Capacity ==> Orderly(Pending(old(tasks)), fired, old(globalTick), globalTick)
    {
      out, fired := [], [];
      var remaining: nat := ticks;
      NothingCutYet(tasks, globalTick, l0Capacity, l1TickRatio, l1Count);
      while remaining > 0
        invariant remaining <= ticks && globalTick == old(globalTick) + ticks - remaining
        invariant Shape() && Linked(tasks, heads, chains, [])
        invariant AllTimed(tasks, globalTick, l0Capacity, l1TickRatio, l1Count)
        invariant DueLedger(old(tasks), tasks, fired, out, globalTick) && tasks.Keys <= old(tasks).Keys
        invariant CutWithin(old(tasks), old(globalTick), tasks, globalTick, l1TickRatio)
        invariant l1TickRatio <= l0Capacity ==> Orderly(Pending(old(tasks)), fired, old(globalTick), globalTick)
      {
        var toCascade := l1TickRatio - globalTick % l1TickRatio;
        var step := if remaining < toCascade then remaining else toCascade;
        ghost var tasks0, tick0 := tasks, globalTick;
        var o, f := AdvanceStep(step);
        CutWithinStep(old(tasks), old(globalTick), tasks0, tick0, tasks, step, l1TickRatio);
        DueLedgerTrans(old(tasks), tasks0, fired, out, tick0, tasks, f, o, globalTick);
        if l1TickRatio <= l0Capacity {
          OrderlyJoins(old(tasks), fired, out, tasks0, f, old(globalTick), tick0, globalTick);
        }
        out, fired := out + o, fired + f;
        remaining := remaining - step;
      }
    }

    /** Advances the clock. Only items due by the new time are delivered, each once; if an L1 tick is
        no longer than the L0 capacity, every item due is, in the order of the deadlines. */
    method Advance(ticks: nat) returns (out: seq<T>, ghost fired: seq<Key>)
      requires Valid()
      modifies this
      ensures Valid() && globalTick == old(globalTick) + ticks
      ensures inserted == old(inserted) && cancelled == old(cancelled) && delivered == old(delivered) + fired
      ensures DueLedger(old(tasks), tasks, fired, out, globalTick)
      ensures l1TickRatio <= l0Capacity ==> DeliversDue(old(Pending(tasks)), globalTick, fired, out) && InOrder(old(Pending(tasks)), fired)
      ensures old(globalTick) / l1TickRatio == globalTick / l1TickRatio ==> CutByTick(old(tasks), tasks, globalTick)
    {
      out, fired := Turn(ticks);
      BookDeliver(inserted, delivered, cancelled, old(Pending(tasks)), old(globalTick), l1TickRatio <= l0Capacity, fired, out, globalTick);
      delivered := delivered + fired;
      LevelsAreTwo(tasks, heads, chains);
      if l1TickRatio <= l0Capacity {
        NothingDueIsLeft(old(tasks), tasks, fired, out, globalTick, l0Capacity, l1TickRatio, l1Count);
      }
    }

    /** Advancing in steps delivers what one advance over their sum would. */
    method AdvanceInSteps(steps: seq<nat>) returns (out: seq<T>, ghost fired: seq<Key>)
      requires Valid()
      modifies this
      ensures Valid() && globalTick == old(globalTick) + Sum(steps)
      ensures OnTime(old(tasks), tasks, fired, out, globalTick, l1TickRatio <= l0Capacity)
      decreases |steps|
    {
      if steps == [] {
        NothingIsDue();
        return [], [];
      }
      var first, fired1 := Advance(steps[0]);
      ghost var tasks1, tick1 := tasks, globalTick;
      var rest, fired2 := AdvanceInSteps(steps[1..]);
      OnTimeTrans(old(tasks), tasks1, fired1, first, tick1, tasks, fired2, rest, globalTick, l1TickRatio <= l0Capacity);
      return first + rest, fired1 + fired2;
    }

    lemma NothingIsDue()
      requires Valid()
      ensures OnTime(tasks, tasks, [], [], globalTick, l1TickRatio <= l0Capacity)
    {
      if l1TickRatio <= l0Capacity {
        forall k | k in Pending(tasks)
          ensures Pending(tasks)[k].deadline > globalTick
        {
          EntriesLieAhead(k);
          CascadeTickBounds(tasks[k].deadline, l1TickRatio);
        }
      }
    }

    /** Over any history of inserts, cancels and advances: the uncancelled keys delivered so far are
        exactly those whose deadline has come, and none was delivered twice. */
    lemma DeliveredIffDue(k: Key)
      requires Valid() && l1TickRatio <= l0Capacity && k in inserted && k !in cancelled
      ensures NoDup(delivered) && (k in delivered <==> inserted[k].deadline <= globalTick)
    {
      if k !in delivered {
        assert k in Pending(tasks);
        assert Timed(k);
        LevelsAreTwo(tasks, heads, chains);
        CascadeTickBounds(tasks[k].deadline, l1TickRatio);
      }
    }

    /** Over any history: of two keys delivered, the one delivered first was due no later than the other. */
    lemma DeliveredInOrder(i: nat, j: nat)
      requires Valid() && l1TickRatio <= l0Capacity && i < j < |delivered|
      ensures delivered[i] in inserted && delivered[j] in inserted
      ensures inserted[delivered[i]].deadline <= inserted[delivered[j]].deadline
    {
      assert delivered[i] in delivered && delivered[j] in delivered;
    }

    /** L0 entries are due within one turn and sit in the slot of their deadline; L1 entries have their
        cascade ahead of them if L1 ticks fit in L0. */
    lemma EntriesLieAhead(k: Key)
      requires Valid() && k in tasks
      ensures tasks[k].level == 0 || tasks[k].level == 1
      ensures tasks[k].level == 0 ==>
        globalTick < tasks[k].deadline < globalTick + l0Capacity && tasks[k].slotIndex == tasks[k].deadline % l0Capacity
      ensures tasks[k].level == 1 && l1TickRatio <= l0Capacity ==> globalTick < CascadeTick(tasks[k].deadline, l1TickRatio)
    {
      assert Timed(k);
      LevelsAreTwo(tasks, heads, chains);
    }

    lemma LevelZeroIsNear(k: Key)
      requires Valid() && k in tasks && globalTick + l0Capacity <= tasks[k].deadline
      ensures tasks[k].level == 1
    {
      assert Timed(k);
      LevelsAreTwo(tasks, heads, chains);
    }

    /** Every entry is in exactly one slot list, the one its own fields name. */
    lemma ListsPartitionTheEntries(k: Key, level: nat, slot: nat)
      requires Valid() && k in tasks && ValidSlot(heads, level, slot)
      ensures Shaped(heads, chains) && NoDup(chains[level][slot])
      ensures k in chains[level][slot] <==> (level, slot) == (tasks[k].level, tasks[k].slotIndex)
      ensures ValidSlot(heads, tasks[k].level, tasks[k].slotIndex)
    {
      ChainMembers(tasks, heads, chains, level, slot);
      assert ChainOk(tasks, heads, chains, [], level, slot);
      assert Placed(tasks, heads, chains, k);
    }
  }

  /** A wheel whose one item is due after exactly the L0 capacity; it goes to L1. */
  method OneFarItem<T>(ghost bits0: nat, ghost bits1: nat, l0Count: nat, l1Count: nat, ratio: nat, item: T)
      returns (w: Wheel<T>, ghost k: Key)
    requires l0Count == Pow2(bits0) && l1Count == Pow2(bits1) && ratio >= 1
    ensures fresh(w) && w.Valid() && w.globalTick == 0 && w.l1TickRatio == ratio
    ensures k in w.tasks && w.tasks[k].level == 1 && Pending(w.tasks) == map[k := Due(l0Count, item)]
  {
    w := new Wheel<T>(bits0, bits1, l0Count, l1Count, ratio);
    k := w.Insert(item, l0Count);
    assert k in Pending(w.tasks);
    w.LevelZeroIsNear(k);
  }

  /** Advancing to a tick before the first cascade point leaves an item in L1 where it is, due or not. */
  method AdvanceShort<T>(w: Wheel<T>, ticks: nat, ghost k: Key) returns (out: seq<T>)
    requires w.Valid() && w.globalTick == 0 && ticks < w.l1TickRatio
    requires k in w.tasks && w.tasks[k].level == 1 && Pending(w.tasks).Keys == {k}
    modifies w
    ensures w.Valid() && w.globalTick == ticks && out == [] && Pending(w.tasks) == old(Pending(w.tasks))
  {
    DivModUnique(ticks, w.l1TickRatio, 0, ticks);
    DivModUnique(0, w.l1TickRatio, 0, 0);
    ghost var fired;
    out, fired := w.Advance(ticks);
    assert k in w.tasks && w.tasks[k] == old(w.tasks)[k];
    NothingElseFires(old(w.tasks), w.tasks, fired, out, k);
    assert Minus(old(Pending(w.tasks)), []) == old(Pending(w.tasks));
  }

  /** If an L1 tick is longer than the L0 capacity, an item due after exactly that capacity is not
      delivered when its time comes, whatever the slot counts. */
  method LongL1TicksDeliverLate<T>(ghost bits0: nat, ghost bits1: nat, l0Count: nat, l1Count: nat, ratio: nat, item: T)
      returns (w: Wheel<T>, out: seq<T>)
    requires l0Count == Pow2(bits0) && l1Count == Pow2(bits1) && ratio > l0Count
    ensures fresh(w) && w.Valid() && out == [] && w.globalTick == l0Count
    ensures exists k :: k in Pending(w.tasks) && Pending(w.tasks)[k] == Due(w.globalTick, item)
  {
    ghost var k;
    w, k := OneFarItem(bits0, bits1, l0Count, l1Count, ratio, item);
    out := AdvanceShort(w, l0Count, k);
    assert k in Pending(w.tasks);
  }

  lemma NewKeyIsLoose<T>(tasks: Tasks<T>, heads: Heads, chains: Chains, key: Key, tasks': Tasks<T>)
    requires Linked(tasks, heads, chains, []) && key !in tasks
    requires key in tasks' && tasks'[key].next == None && tasks' == tasks[key := tasks'[key]]
    ensures Linked(tasks', heads, chains, [key]) && ListOk(tasks', Some(key), [key])
  {
    forall l: nat, s: nat | ValidSlot(heads, l, s)
      ensures ChainOk(tasks', heads, chains, [key], l, s)
    {
      assert ChainOk(tasks, heads, chains, [], l, s);
      SameList(tasks, heads[l][s], chains[l][s], tasks');
    }
    forall k | k in tasks' && k !in [key]
      ensures Placed(tasks', heads, chains, k)
    {
      assert Placed(tasks, heads, chains, k);
    }
    assert Follows(tasks', [key], 0);
  }

  lemma NothingCutYet<T>(tasks: Tasks<T>, now: nat, capacity: nat, ratio: nat, l1Count: nat)
    requires capacity > 0 && ratio > 0 && l1Count > 0 && AllTimed(tasks, now, capacity, ratio, l1Count)
    ensures CutByTick(tasks, tasks, now)
  {
    forall k | k in tasks
      ensures !(tasks[k].level == 0 && tasks[k].deadline <= now)
    {
      assert TimedOk(tasks[k], now, capacity, ratio, l1Count);
    }
  }

  /** Cancelling an item changes no list. */
  lemma ItemsDoNotLink<T>(tasks: Tasks<T>, heads: Heads, chains: Chains, key: Key, tasks': Tasks<T>)
    requires Linked(tasks, heads, chains, []) && key in tasks
    requires tasks' == tasks[key := tasks[key].(item := None)]
    ensures Linked(tasks', heads, chains, [])
  {
    forall l: nat, s: nat | ValidSlot(heads, l, s)
      ensures ChainOk(tasks', heads, chains, [], l, s)
    {
      assert ChainOk(tasks, heads, chains, [], l, s);
      var chain := chains[l][s];
      forall i | 0 <= i < |chain|
        ensures Follows(tasks', chain, i)
      {
        assert Follows(tasks, chain, i);
      }
    }
    forall k | k in tasks'
      ensures Placed(tasks', heads, chains, k)
    {
      assert Placed(tasks, heads, chains, k);
    }
  }
}
