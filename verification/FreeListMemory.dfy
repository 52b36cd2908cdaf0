/** Free lists threaded through the slots themselves: a free slot holds the links of its list and the
    order of its block, a slot in use holds whatever its owner wrote. */
module FreeListMemory {
  import opened Prelude
  import opened Sequences

  /** The first bytes of a slot, read as a free node. */
  datatype Cell = Cell(prev: Option<nat>, next: Option<nat>, linked: bool, order: nat)

  /** The list object: its two ends and its length. */
  datatype Ends = Ends(head: Option<nat>, tail: Option<nat>, len: nat)

  const NO_LIST: Ends := Ends(None, None, 0)

  type Lists = seq<seq<nat>>

  /** The slot at position `i` of a list is linked between its neighbours. */
  ghost predicate Between(cells: seq<Cell>, list: seq<nat>, i: int)
    requires 0 <= i < |list|
  {
    && list[i] < |cells| && cells[list[i]].linked
    && cells[list[i]].prev == At(list, i - 1) && cells[list[i]].next == At(list, i + 1)
  }

  ghost predicate ListOk(cells: seq<Cell>, ends: Ends, list: seq<nat>) {
    && NoDup(list) && ends == Ends(At(list, 0), At(list, |list| - 1), |list|)
    && (forall i {:trigger Between(cells, list, i)} :: 0 <= i < |list| ==> Between(cells, list, i))
  }

  ghost predicate Listed(lists: Lists, x: nat) {
    exists o :: 0 <= o < |lists| && x in lists[o]
  }

  /** No slot is in two lists. */
  ghost predicate Apart(lists: Lists) {
    forall o, p, x :: 0 <= o < |lists| && 0 <= p < |lists| && x in lists[o] && x in lists[p] ==> o == p
  }

  /** The links in memory spell out exactly these lists. */
  ghost predicate Threaded(cells: seq<Cell>, ends: seq<Ends>, lists: Lists) {
    && |ends| == |lists| && Apart(lists)
    && (forall o {:trigger ListOk(cells, ends[o], lists[o])} :: 0 <= o < |lists| ==> ListOk(cells, ends[o], lists[o]))
  }

  lemma ListFrame(cells: seq<Cell>, ends: Ends, list: seq<nat>, cells': seq<Cell>)
    requires ListOk(cells, ends, list) && |cells'| == |cells|
    requires forall x :: x in list && x < |cells| ==> cells'[x] == cells[x]
    ensures ListOk(cells', ends, list)
  {
    forall i | 0 <= i < |list|
      ensures Between(cells', list, i)
    {
      assert Between(cells, list, i) && list[i] in list;
    }
  }

  /** Members are in memory, and linked. */
  lemma MembersAreLinked(cells: seq<Cell>, ends: seq<Ends>, lists: Lists, o: nat, x: nat)
    requires Threaded(cells, ends, lists) && o < |lists| && x in lists[o]
    ensures x < |cells| && cells[x].linked
  {
    assert ListOk(cells, ends[o], lists[o]);
    var i :| 0 <= i < |lists[o]| && lists[o][i] == x;
    assert Between(cells, lists[o], i);
  }

  /** Whatever is written to a slot that is in no list, the lists are the same. */
  lemma WriteOutside(cells: seq<Cell>, ends: seq<Ends>, lists: Lists, x: nat, c: Cell)
    requires Threaded(cells, ends, lists) && x < |cells| && !Listed(lists, x)
    ensures Threaded(cells[x := c], ends, lists)
  {
    forall o | 0 <= o < |lists|
      ensures ListOk(cells[x := c], ends[o], lists[o])
    {
      assert ListOk(cells, ends[o], lists[o]);
      ListFrame(cells, ends[o], lists[o], cells[x := c]);
    }
  }

  // ---------------------------------------------------------------------------------------
  // Pushing
  // ---------------------------------------------------------------------------------------

  /** What `push_front` writes: the new node, and the old head's link back to it. */
  predicate Pushed(cells: seq<Cell>, ends: Ends, x: nat, cells': seq<Cell>, ends': Ends) {
    && |cells'| == |cells| && x < |cells|
    && cells'[x] == cells[x].(prev := None, next := ends.head, linked := true)
    && (ends.head.Some? && ends.head.value < |cells| && ends.head.value != x ==>
          cells'[ends.head.value] == cells[ends.head.value].(prev := Some(x)))
    && (forall y :: 0 <= y < |cells| && y != x && ends.head != Some(y) ==> cells'[y] == cells[y])
    && ends' == Ends(Some(x), if ends.head.Some? then ends.tail else Some(x), ends.len + 1)
  }

  lemma PushList(cells: seq<Cell>, ends: Ends, list: seq<nat>, x: nat, cells': seq<Cell>, ends': Ends)
    requires ListOk(cells, ends, list) && x !in list && Pushed(cells, ends, x, cells', ends')
    ensures ListOk(cells', ends', [x] + list)
  {
    var list' := [x] + list;
    NoDupCons(x, list);
    forall i | 0 <= i < |list'|
      ensures Between(cells', list', i)
    {
      if i > 0 {
        assert Between(cells, list, i - 1) && list[i - 1] in list;
        assert i > 1 ==> list[i - 1] != list[0];
      }
    }
  }

  lemma PushThreads(cells: seq<Cell>, ends: seq<Ends>, lists: Lists, o: nat, x: nat, cells': seq<Cell>, ends': seq<Ends>)
    requires Threaded(cells, ends, lists) && o < |lists| && !Listed(lists, x)
    requires |ends'| == |ends| && ends' == ends[o := ends'[o]] && Pushed(cells, ends[o], x, cells', ends'[o])
    ensures Threaded(cells', ends', lists[o := [x] + lists[o]])
  {
    var lists' := lists[o := [x] + lists[o]];
    forall p | 0 <= p < |lists'|
      ensures ListOk(cells', ends'[p], lists'[p])
    {
      assert ListOk(cells, ends[p], lists[p]) && ListOk(cells, ends[o], lists[o]);
      if p == o {
        PushList(cells, ends[o], lists[o], x, cells', ends'[o]);
      } else {
        assert ends[o].head.Some? ==> ends[o].head.value in lists[o];
        ListFrame(cells, ends[p], lists[p], cells');
      }
    }
  }

  // ---------------------------------------------------------------------------------------
  // Unlinking
  // ---------------------------------------------------------------------------------------

  /** What unlinking a node writes: its neighbours' links past it, and its own cleared. */
  predicate Unlinked(cells: seq<Cell>, ends: Ends, x: nat, cells': seq<Cell>, ends': Ends)
    requires x < |cells|
  {
    var prev, next := cells[x].prev, cells[x].next;
    && |cells'| == |cells|
    && cells'[x] == cells[x].(prev := None, next := None, linked := false)
    && (forall y :: 0 <= y < |cells| && y != x ==>
          cells'[y] == cells[y].(prev := if next == Some(y) then prev else cells[y].prev,
                                 next := if prev == Some(y) then next else cells[y].next))
    && ends.len > 0
    && ends' == Ends(if prev.Some? then ends.head else next, if next.Some? then ends.tail else prev, ends.len - 1)
  }

  /** The slot at position `k` is linked as in the list, but past position `i`. */
  ghost predicate Bypasses(cells: seq<Cell>, list: seq<nat>, i: int, k: int)
    requires 0 <= k < |list|
  {
    && list[k] < |cells| && cells[list[k]].linked
    && cells[list[k]].prev == At(list, if k == i + 1 then i - 1 else k - 1)
    && cells[list[k]].next == At(list, if k == i - 1 then i + 1 else k + 1)
  }

  lemma UnlinkList(cells: seq<Cell>, ends: Ends, list: seq<nat>, i: nat, cells': seq<Cell>, ends': Ends)
    requires ListOk(cells, ends, list) && i < |list| && list[i] < |cells| && Unlinked(cells, ends, list[i], cells', ends')
    ensures ListOk(cells', ends', RemoveAt(list, i))
  {
    var list' := RemoveAt(list, i);
    assert Between(cells, list, i);
    RemoveAtContents(list, i);
    forall j | 0 <= j < |list'|
      ensures Between(cells', list', j)
    {
      var k := if j < i then j else j + 1;
      assert Bypasses(cells', list, i, k) by {
        assert Between(cells, list, k) && list[k] != list[i];
      }
    }
  }

  lemma UnlinkThreads(cells: seq<Cell>, ends: seq<Ends>, lists: Lists, o: nat, i: nat, cells': seq<Cell>, ends': seq<Ends>)
    requires Threaded(cells, ends, lists) && o < |lists| && i < |lists[o]| && lists[o][i] < |cells|
    requires |ends'| == |ends| && ends' == ends[o := ends'[o]] && Unlinked(cells, ends[o], lists[o][i], cells', ends'[o])
    ensures Threaded(cells', ends', lists[o := RemoveAt(lists[o], i)])
    ensures !Listed(lists[o := RemoveAt(lists[o], i)], lists[o][i])
  {
    var x := lists[o][i];
    var lists' := lists[o := RemoveAt(lists[o], i)];
    assert ListOk(cells, ends[o], lists[o]) && Between(cells, lists[o], i);
    RemoveAtContents(lists[o], i);
    forall p | 0 <= p < |lists'|
      ensures ListOk(cells', ends'[p], lists'[p])
    {
      assert ListOk(cells, ends[p], lists[p]);
      if p == o {
        UnlinkList(cells, ends[o], lists[o], i, cells', ends'[o]);
      } else {
        assert x in lists[o] && (i > 0 ==> lists[o][i - 1] in lists[o]) && (i + 1 < |lists[o]| ==> lists[o][i + 1] in lists[o]);
        ListFrame(cells, ends[p], lists[p], cells');
      }
    }
  }

  // ---------------------------------------------------------------------------------------
  // Orders
  // ---------------------------------------------------------------------------------------

  /** The order field of every slot. */
  function Orders(cells: seq<Cell>): (r: seq<nat>)
    ensures |r| == |cells| && forall i :: 0 <= i < |r| ==> r[i] == cells[i].order
  {
    seq(|cells|, i requires 0 <= i < |cells| => cells[i].order)
  }

  // ---------------------------------------------------------------------------------------
  // In place
  // ---------------------------------------------------------------------------------------

  /** The slots a list operation writes besides the node itself are there, and are not the node. */
  predicate Reachable(end: Option<nat>, x: nat, size: nat) {
    end.Some? ==> end.value < size && end.value != x
  }

  /** Puts a node in front; refuses (where the source panics) one that says it is linked. */
  method PushFront(memory: array<Cell>, ends: Ends, x: nat) returns (ok: bool, ends': Ends)
    requires x < memory.Length && Reachable(ends.head, x, memory.Length)
    modifies memory
    ensures ok == !old(memory[x].linked)
    ensures ok ==> Pushed(old(memory[..]), ends, x, memory[..], ends')
    ensures !ok ==> memory[..] == old(memory[..]) && ends' == ends
  {
    if memory[x].linked {
      return false, ends;
    }
    memory[x] := memory[x].(prev := None, next := ends.head, linked := true);
    var tail := ends.tail;
    if ends.head.Some? {
      var h := ends.head.value;
      memory[h] := memory[h].(prev := Some(x));
    } else {
      tail := Some(x);
    }
    return true, Ends(Some(x), tail, ends.len + 1);
  }

  /** Takes a node out through its own links. */
  method Unlink(memory: array<Cell>, ends: Ends, x: nat) returns (ends': Ends)
    requires x < memory.Length && ends.len > 0
    requires Reachable(memory[x].prev, x, memory.Length) && Reachable(memory[x].next, x, memory.Length)
    requires memory[x].prev.Some? ==> memory[x].prev != memory[x].next
    modifies memory
    ensures Unlinked(old(memory[..]), ends, x, memory[..], ends')
  {
    var prev, next := memory[x].prev, memory[x].next;
    ends' := ends;
    if prev.Some? {
      memory[prev.value] := memory[prev.value].(next := next);
    } else {
      ends' := ends'.(head := next);
    }
    if next.Some? {
      memory[next.value] := memory[next.value].(prev := prev);
    } else {
      ends' := ends'.(tail := prev);
    }
    ends' := ends'.(len := ends.len - 1);
    memory[x] := memory[x].(prev := None, next := None, linked := false);
  }

  /** Takes the first node off. */
  method PopFront(memory: array<Cell>, ends: Ends) returns (x: nat, ends': Ends)
    requires ends.head.Some? && ends.head.value < memory.Length && ends.len > 0
    requires memory[ends.head.value].prev.None? && Reachable(memory[ends.head.value].next, ends.head.value, memory.Length)
    modifies memory
    ensures Some(x) == ends.head && Unlinked(old(memory[..]), ends, x, memory[..], ends')
  {
    x := ends.head.value;
    var next := memory[x].next;
    var tail := ends.tail;
    if next.Some? {
      memory[next.value] := memory[next.value].(prev := None);
    } else {
      tail := None;
    }
    ends' := Ends(next, tail, ends.len - 1);
    memory[x] := memory[x].(prev := None, next := None, linked := false);
  }

  /** The neighbours of a member are members, in memory, and different from it and from each other. */
  lemma Neighbours(cells: seq<Cell>, ends: Ends, list: seq<nat>, i: nat)
    requires ListOk(cells, ends, list) && i < |list|
    ensures list[i] < |cells| && ends.len > 0
    ensures var c := cells[list[i]];
      && Reachable(c.prev, list[i], |cells|) && Reachable(c.next, list[i], |cells|)
      && (c.prev.Some? ==> c.prev != c.next) && (i == 0 ==> c.prev.None? && ends.head == Some(list[i]))
  {
    assert Between(cells, list, i);
    assert i > 0 ==> Between(cells, list, i - 1);
    assert i + 1 < |list| ==> Between(cells, list, i + 1);
  }

  lemma HeadIsOutside(cells: seq<Cell>, ends: seq<Ends>, lists: Lists, o: nat, x: nat)
    requires Threaded(cells, ends, lists) && o < |lists| && !Listed(lists, x)
    ensures Reachable(ends[o].head, x, |cells|)
  {
    assert ListOk(cells, ends[o], lists[o]);
    if lists[o] != [] {
      assert Between(cells, lists[o], 0) && lists[o][0] in lists[o];
    }
  }
}
