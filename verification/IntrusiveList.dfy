/** The intrusive doubly linked list: nodes carry their own links, and the list is the sequence the
    links spell out. */
module IntrusiveList {
  import opened Prelude
  import opened Sequences

  class Node {
    var prev: Node?
    var next: Node?
    var linked: bool

    constructor ()
      ensures prev == null && next == null && !linked
    {
      prev, next, linked := null, null, false;
    }

    method Unlink()
      modifies this
      ensures prev == null && next == null && !linked
    {
      prev, next, linked := null, null, false;
    }
  }

  /** The node at a position, or null outside the sequence. */
  function NodeAt(nodes: seq<Node>, i: int): Node? {
    if 0 <= i < |nodes| then nodes[i] else null
  }

  /** The node at position `i` is linked between its neighbours. */
  ghost predicate Between(nodes: seq<Node>, i: int)
    requires 0 <= i < |nodes|
    reads nodes[i]
  {
    nodes[i].linked && nodes[i].prev == NodeAt(nodes, i - 1) && nodes[i].next == NodeAt(nodes, i + 1)
  }

  class LinkedList {
    var head: Node?
    var tail: Node?
    var len: nat
    /** The list from head to tail. */
    ghost var nodes: seq<Node>

    ghost predicate Valid()
      reads this, nodes
    {
      && NoDup(nodes) && len == |nodes| && head == NodeAt(nodes, 0) && tail == NodeAt(nodes, |nodes| - 1)
      && (forall i {:trigger Between(nodes, i)} :: 0 <= i < |nodes| ==> Between(nodes, i))
    }

    constructor ()
      ensures Valid() && nodes == []
    {
      head, tail, len, nodes := null, null, 0, [];
    }

    /** Appends an unlinked node; refuses (where the source panics) a linked one. */
    method PushBack(node: Node) returns (ok: bool)
      requires Valid()
      modifies if node.linked then {} else {this, node, tail}
      ensures Valid() && ok == !old(node.linked)
      ensures nodes == if ok then old(nodes) + [node] else old(nodes)
    {
      if node.linked {
        return false;
      }
      assert node !in nodes by {
        if node in nodes {
          MembersAreLinked(this, node);
        }
      }
      assert tail != null ==> tail == nodes[|nodes| - 1];
      var oldTail := tail;
      node.next := null;
      node.prev := oldTail;
      node.linked := true;
      if oldTail != null {
        oldTail.next := node;
      } else {
        head := node;
      }
      tail := node;
      len := len + 1;
      nodes := nodes + [node];
      ghost var n := |old(nodes)|;
      forall i | 0 <= i < |nodes|
        ensures Between(nodes, i)
      {
        assert i < n ==> old(Between(nodes, i)) && nodes[i] == old(nodes)[i];
      }
      return true;
    }

    /** Prepends an unlinked node; refuses (where the source panics) a linked one. */
    method PushFront(node: Node) returns (ok: bool)
      requires Valid()
      modifies if node.linked then {} else {this, node, head}
      ensures Valid() && ok == !old(node.linked)
      ensures nodes == if ok then [node] + old(nodes) else old(nodes)
    {
      if node.linked {
        return false;
      }
      assert node !in nodes by {
        if node in nodes {
          MembersAreLinked(this, node);
        }
      }
      var oldHead := head;
      node.prev := null;
      node.next := oldHead;
      node.linked := true;
      if oldHead != null {
        oldHead.prev := node;
      } else {
        tail := node;
      }
      head := node;
      len := len + 1;
      NoDupCons(node, nodes);
      nodes := [node] + nodes;
      forall i | 0 <= i < |nodes|
        ensures Between(nodes, i)
      {
        assert i > 0 ==> old(Between(nodes, i - 1)) && nodes[i] == old(nodes)[i - 1];
      }
      return true;
    }

    /** Takes the first node off, unlinked. */
    method PopFront() returns (node: Node?)
      requires Valid()
      modifies this, nodes
      ensures Valid()
      ensures old(nodes) == [] ==> node == null && nodes == []
      ensures old(nodes) != [] ==> node == old(nodes)[0] && nodes == old(nodes)[1..] && Loose(node)
    {
      node := head;
      if node == null {
        return;
      }
      assert Between(nodes, 0);
      var next := node.next;
      if next != null {
        next.prev := null;
      } else {
        tail := null;
      }
      head := next;
      len := len - 1;
      node.Unlink();
      nodes := nodes[1..];
      forall i | 0 <= i < |nodes|
        ensures Between(nodes, i)
      {
        assert old(Between(nodes, i + 1)) && nodes[i] == old(nodes)[i + 1];
      }
      assert old(nodes) == [node] + nodes;
    }

    /** Links the neighbours of a member to each other and unlinks it. */
    method Splice(node: Node, ghost i: nat) returns (next: Node?)
      requires Valid() && i < |nodes| && nodes[i] == node
      modifies this`head, this`tail, nodes
      ensures head == NodeAt(RemoveAt(nodes, i), 0) && tail == NodeAt(RemoveAt(nodes, i), |nodes| - 2) && next == NodeAt(RemoveAt(nodes, i), i)
      ensures Loose(node) && (forall k {:trigger Bypasses(nodes, i, k)} :: 0 <= k < |nodes| && k != i ==> Bypasses(nodes, i, k))
    {
      assert Between(nodes, i);
      var prev := node.prev;
      next := node.next;
      if prev != null {
        prev.next := next;
      } else {
        head := next;
      }
      if next != null {
        next.prev := prev;
      } else {
        tail := prev;
      }
      node.Unlink();
      forall k | 0 <= k < |nodes| && k != i
        ensures Bypasses(nodes, i, k)
      {
        assert old(Between(nodes, k)) && nodes[k] != node;
      }
    }

    /** Removes a member through its own links and moves on to its successor. */
    method Remove(node: Node, ghost i: nat) returns (next: Node?)
      requires Valid() && i < |nodes| && nodes[i] == node
      modifies this, nodes
      ensures Valid() && Loose(node)
      ensures nodes == RemoveAt(old(nodes), i) && next == NodeAt(nodes, i)
    {
      next := Splice(node, i);
      len := len - 1;
      ghost var all := nodes;
      RemoveAtContents(all, i);
      nodes := RemoveAt(all, i);
      forall j | 0 <= j < |nodes|
        ensures Between(nodes, j)
      {
        Joined(all, i, j);
      }
    }

    /** Unlinks every node, walking the links while cutting them. */
    method Drop()
      requires Valid()
      modifies this, nodes
      ensures Valid() && nodes == []
      ensures forall n :: n in old(nodes) ==> Loose(n)
    {
      var current := head;
      ghost var all := nodes;
      ghost var i := 0;
      head, tail, len := null, null, 0;
      while current != null
        invariant 0 <= i <= |all| && current == NodeAt(all, i) && nodes == all
        invariant head == null && tail == null && len == 0
        invariant forall k :: 0 <= k < i ==> Loose(all[k])
        invariant forall k {:trigger Between(all, k)} :: i <= k < |all| ==> Between(all, k)
        decreases |all| - i
      {
        assert Between(all, i);
        var next := current.next;
        current.Unlink();
        current := next;
        forall k | i < k < |all|
          ensures Between(all, k)
        {
          assert all[k] != all[i];
        }
        i := i + 1;
      }
      nodes := [];
    }
  }

  /** Node `k` is linked as in the sequence, but past position `i`. */
  ghost predicate Bypasses(nodes: seq<Node>, i: int, k: int)
    requires 0 <= k < |nodes|
    reads nodes[k]
  {
    && nodes[k].linked
    && nodes[k].prev == NodeAt(nodes, if k == i + 1 then i - 1 else k - 1)
    && nodes[k].next == NodeAt(nodes, if k == i - 1 then i + 1 else k + 1)
  }

  /** In a valid list `prev` and `next` are inverse to each other, and every member is linked. */
  lemma LinksAreInverse(l: LinkedList, a: Node, b: Node)
    requires l.Valid() && a in l.nodes && b in l.nodes
    ensures a.linked && (a.next == b <==> b.prev == a)
  {
    var i :| 0 <= i < |l.nodes| && l.nodes[i] == a;
    var j :| 0 <= j < |l.nodes| && l.nodes[j] == b;
    assert Between(l.nodes, i) && Between(l.nodes, j);
  }

  lemma Joined(nodes: seq<Node>, i: nat, j: nat)
    requires i < |nodes| && j < |nodes| - 1 && Bypasses(nodes, i, if j < i then j else j + 1)
    ensures Between(RemoveAt(nodes, i), j)
  {
  }

  ghost predicate Loose(n: Node)
    reads n
  {
    !n.linked && n.prev == null && n.next == null
  }

  // ---------------------------------------------------------------------------------------
  // Several lists
  // ---------------------------------------------------------------------------------------

  ghost predicate Within(lists: set<LinkedList>, universe: set<Node>)
    reads lists
  {
    forall l, n :: l in lists && n in l.nodes ==> n in universe
  }

  ghost predicate Separate(lists: set<LinkedList>)
    reads lists
  {
    forall l, m, n :: l in lists && m in lists && n in l.nodes && n in m.nodes ==> l == m
  }

  ghost predicate Member(lists: set<LinkedList>, n: Node)
    reads lists
  {
    exists l :: l in lists && n in l.nodes
  }

  /** The lists share no node, and a node is linked exactly if it is in one of them. */
  ghost predicate Exact(lists: set<LinkedList>, universe: set<Node>)
    reads lists, universe
  {
    && Within(lists, universe) && Separate(lists)
    && (forall l :: l in lists ==> l.Valid())
    && (forall n :: n in universe ==> (n.linked <==> Member(lists, n)))
  }

  lemma MembersAreLinked(l: LinkedList, n: Node)
    requires l.Valid() && n in l.nodes
    ensures n.linked
  {
    var i :| 0 <= i < |l.nodes| && l.nodes[i] == n;
    assert Between(l.nodes, i);
  }

  /** The operations of a list. */
  datatype Op = PushBackOp(node: Node) | PushFrontOp(node: Node) | PopFrontOp | RemoveOp(node: Node) | DropOp

  predicate Pushes(op: Op) {
    op.PushBackOp? || op.PushFrontOp?
  }

  /** The nodes an operation is given. */
  function Given(op: Op): set<Node> {
    if Pushes(op) || op.RemoveOp? then {op.node} else {}
  }

  /** A push of a node that says it is linked is refused (where the source panics). */
  ghost predicate Refused(op: Op)
    reads Given(op)
  {
    Pushes(op) && op.node.linked
  }

  /** What an operation that is not refused makes of the list. */
  function After(nodes: seq<Node>, op: Op): seq<Node> {
    match op
    case PushBackOp(n) => nodes + [n]
    case PushFrontOp(n) => [n] + nodes
    case PopFrontOp => if nodes == [] then [] else nodes[1..]
    case RemoveOp(n) => Without(nodes, n)
    case DropOp => []
  }

  /** Any operation on one list: what leaves the list is unlinked, what comes in was not linked. */
  method Perform(l: LinkedList, op: Op)
    requires l.Valid() && (op.RemoveOp? ==> op.node in l.nodes)
    modifies if Refused(op) then {} else {l}, if Refused(op) then [] else l.nodes, if Refused(op) then {} else Given(op)
    ensures l.Valid() && l.nodes == if old(Refused(op)) then old(l.nodes) else After(old(l.nodes), op)
    ensures forall n :: n in old(l.nodes) && n !in l.nodes ==> Loose(n)
    ensures forall n :: n in l.nodes && n !in old(l.nodes) ==> n in Given(op) && !old(n.linked)
  {
    match op {
      case PushBackOp(n) =>
        var _ := l.PushBack(n);
      case PushFrontOp(n) =>
        var _ := l.PushFront(n);
      case PopFrontOp =>
        var n := l.PopFront();
        assert old(l.nodes) == [] || old(l.nodes) == [n] + l.nodes;
      case RemoveOp(n) =>
        ghost var i :| 0 <= i < |l.nodes| && l.nodes[i] == n;
        WithoutIsRemoveAt(l.nodes, i);
        RemoveAtContents(l.nodes, i);
        var _ := l.Remove(n, i);
      case DropOp => l.Drop();
    }
  }

  /** The other lists stay as they are. */
  method PerformAmong(l: LinkedList, op: Op, ghost lists: set<LinkedList>)
    requires l in lists && (forall m :: m in lists ==> m.Valid()) && Separate(lists)
    requires !Refused(op) && (op.RemoveOp? ==> op.node in l.nodes)
    modifies l, l.nodes, Given(op)
    ensures (forall m :: m in lists ==> m.Valid()) && l.nodes == After(old(l.nodes), op)
    ensures forall n :: n in old(l.nodes) && n !in l.nodes ==> Loose(n)
    ensures forall n :: n in l.nodes && n !in old(l.nodes) ==> n in Given(op) && !old(n.linked)
  {
    Perform(l, op);
    forall m | m in lists && m != l
      ensures m.Valid()
    {
      assert old(m.Valid()) && m.nodes == old(m.nodes);
      forall i | 0 <= i < |m.nodes|
        ensures Between(m.nodes, i)
      {
        assert old(Between(m.nodes, i)) && m.nodes[i] in old(m.nodes) && m.nodes[i] !in old(l.nodes);
        assert old(m.nodes[i].linked);
      }
    }
  }

  /** Among several lists, every operation on any of them keeps the lists valid and apart, and a node linked
      exactly if it is in one of them. */
  method ApplyOpen(l: LinkedList, op: Op, ghost lists: set<LinkedList>, ghost universe: set<Node>)
    requires Exact(lists, universe) && l in lists && Given(op) <= universe
    requires !Refused(op) && (op.RemoveOp? ==> op.node in l.nodes)
    modifies l, l.nodes, Given(op)
    ensures Exact(lists, universe) && l.nodes == After(old(l.nodes), op)
    ensures forall n :: n in old(l.nodes) && n !in l.nodes ==> !Member(lists, n)
  {
    PerformAmong(l, op, lists);
    forall n | n in universe
      ensures n.linked <==> Member(lists, n)
    {
      if n in l.nodes {
        MembersAreLinked(l, n);
      } else if n in old(l.nodes) {
        assert !Member(lists, n);
      } else {
        assert old(Member(lists, n)) <==> Member(lists, n);
      }
    }
  }

  /** So they do if pushes of linked nodes are refused; a push is refused exactly if the node is in a list. */
  method Apply(l: LinkedList, op: Op, ghost lists: set<LinkedList>, ghost universe: set<Node>)
    requires Exact(lists, universe) && l in lists && Given(op) <= universe && (op.RemoveOp? ==> op.node in l.nodes)
    modifies l, universe
    ensures Exact(lists, universe)
    ensures l.nodes == if Pushes(op) && old(Member(lists, op.node)) then old(l.nodes) else After(old(l.nodes), op)
    ensures forall n :: n in old(l.nodes) && n !in l.nodes ==> !Member(lists, n)
  {
    if Pushes(op) && op.node.linked {
      Perform(l, op);
    } else {
      ApplyOpen(l, op, lists, universe);
    }
  }

  /** A node taken off one list can go on another, as blocks do that move between free lists. */
  method MoveFront(from: LinkedList, to: LinkedList, ghost lists: set<LinkedList>, ghost universe: set<Node>)
      returns (node: Node?)
    requires Exact(lists, universe) && from in lists && to in lists && from != to
    modifies from, to, universe
    ensures Exact(lists, universe)
    ensures old(from.nodes) == [] ==> node == null && from.nodes == [] && to.nodes == old(to.nodes)
    ensures old(from.nodes) != [] ==>
      node == old(from.nodes)[0] && from.nodes == old(from.nodes)[1..] && to.nodes == [node] + old(to.nodes)
  {
    node := from.head;
    if node != null {
      Apply(from, PopFrontOp, lists, universe);
      Apply(to, PushFrontOp(node), lists, universe);
    }
  }

  /** Every mix of operations on a list. A node is removed only if it says it is linked, as the waiter queues
      do; that is enough to know it is a member. */
  method Mix(l: LinkedList, ops: seq<Op>, ghost universe: set<Node>)
    requires Exact({l}, universe) && forall k :: 0 <= k < |ops| ==> Given(ops[k]) <= universe
    modifies l, universe
    ensures Exact({l}, universe) && forall n :: n in universe ==> (n.linked <==> n in l.nodes)
  {
    for k := 0 to |ops|
      invariant Exact({l}, universe)
    {
      var op := ops[k];
      if !op.RemoveOp? || op.node.linked {
        assert op.RemoveOp? ==> Member({l}, op.node);
        Apply(l, op, {l}, universe);
      }
    }
  }
}
