/** The local single-producer single-consumer channel: a ring buffer with wrapping counters and the two
    wakers parked beside it. */
module Spsc {
  import opened Bits
  import opened Words
  import opened Prelude

  type Waker = nat

  datatype SendResult<T> = Sent | Full(item: T) | SendClosed(item: T)

  datatype RecvResult<T> = Got(item: T) | Empty | RecvClosed

  datatype Poll<T> = Ready(value: T) | Pending

  // ---------------------------------------------------------------------------------------
  // Slots
  // ---------------------------------------------------------------------------------------

  /** What slot `j` places after the head holds. */
  ghost predicate Holds<T>(buffer: seq<Option<T>>, head: nat, items: seq<T>, j: int)
    requires 0 <= j < |items|
  {
    |buffer| > 0 && buffer[(head + j) % |buffer|] == Some(items[j])
  }

  /** The buffer holds `items` from the head on, wrapping around. */
  ghost predicate Stores<T>(buffer: seq<Option<T>>, head: nat, items: seq<T>) {
    && |items| <= |buffer|
    && (forall j {:trigger Holds(buffer, head, items, j)} :: 0 <= j < |items| ==> Holds(buffer, head, items, j))
  }

  lemma StoreNext<T>(buffer: seq<Option<T>>, head: nat, items: seq<T>, x: T, buffer': seq<Option<T>>)
    requires Stores(buffer, head, items) && |items| < |buffer|
    requires buffer' == buffer[(head + |items|) % |buffer| := Some(x)]
    ensures Stores(buffer', head, items + [x])
  {
    var items' := items + [x];
    forall j | 0 <= j < |items'|
      ensures Holds(buffer', head, items', j)
    {
      if j < |items| {
        assert Holds(buffer, head, items, j);
        if (head + j) % |buffer| == (head + |items|) % |buffer| {
          NearResidues(head + j, head + |items|, |buffer|);
        }
      }
    }
  }

  lemma DropNext<T>(buffer: seq<Option<T>>, head: nat, items: seq<T>, head': nat)
    requires Stores(buffer, head, items) && items != [] && head' % |buffer| == (head + 1) % |buffer|
    ensures Stores(buffer, head', items[1..])
  {
    forall j | 0 <= j < |items[1..]|
      ensures Holds(buffer, head', items[1..], j)
    {
      assert Holds(buffer, head, items, j + 1);
      SameOffset(head', head + 1, j, |buffer|);
    }
  }

  lemma SameOffset(a: nat, b: nat, j: nat, m: nat)
    requires m > 0 && a % m == b % m
    ensures (a + j) % m == (b + j) % m
  {
    var r := a % m + j;
    assert a == m * (a / m) + a % m && b == m * (b / m) + b % m && r == m * (r / m) + r % m;
    assert m * (a / m) + m * (r / m) == m * (a / m + r / m) && m * (b / m) + m * (r / m) == m * (b / m + r / m);
    DivModUnique(a + j, m, a / m + r / m, r % m);
    DivModUnique(b + j, m, b / m + r / m, r % m);
  }

  // ---------------------------------------------------------------------------------------
  // Counters
  // ---------------------------------------------------------------------------------------

  /** `wrapping_sub`. */
  function WrapSub(a: nat, b: nat): nat {
    (a - b) % WORD
  }

  /** `wrapping_add(1)`. */
  function WrapNext(a: nat): nat {
    (a + 1) % WORD
  }

  /** `tail` is `n` steps after `head`. */
  ghost predicate Apart(head: nat, tail: nat, n: nat) {
    && head < WORD && n < WORD && tail == (head + n) % WORD
  }

  lemma LengthIs(head: nat, tail: nat, n: nat)
    requires Apart(head, tail, n)
    ensures WrapSub(tail, head) == n && tail < WORD && (head == tail <==> n == 0)
  {
  }

  lemma TailMoves(head: nat, tail: nat, n: nat)
    requires Apart(head, tail, n) && n + 1 < WORD
    ensures Apart(head, WrapNext(tail), n + 1)
  {
  }

  lemma HeadMoves(head: nat, tail: nat, n: nat)
    requires Apart(head, tail, n) && n > 0
    ensures Apart(WrapNext(head), tail, n - 1)
  {
  }

  /** Writing the slot of the tail and moving the tail on appends. */
  lemma PushOk<T>(buffer: seq<Option<T>>, head: nat, tail: nat, items: seq<T>, x: T, bits: nat, buffer': seq<Option<T>>)
    requires bits <= 63 && |buffer| == Pow2(bits) && Stores(buffer, head, items) && Apart(head, tail, |items|)
    requires |items| < |buffer| && buffer' == buffer[tail % |buffer| := Some(x)]
    ensures Stores(buffer', head, items + [x]) && Apart(head, WrapNext(tail), |items + [x]|)
  {
    ModOfWord(head + |items|, bits);
    CapacityFits(bits);
    TailMoves(head, tail, |items|);
    StoreNext(buffer, head, items, x, buffer');
  }

  /** Moving the head on drops the oldest item. */
  lemma PopOk<T>(buffer: seq<Option<T>>, head: nat, tail: nat, items: seq<T>, bits: nat)
    requires bits <= 63 && |buffer| == Pow2(bits) && Stores(buffer, head, items) && Apart(head, tail, |items|)
    requires items != []
    ensures Stores(buffer, WrapNext(head), items[1..]) && Apart(WrapNext(head), tail, |items[1..]|)
  {
    ModOfWord(head + 1, bits);
    HeadMoves(head, tail, |items|);
    DropNext(buffer, head, items, WrapNext(head));
  }

  // ---------------------------------------------------------------------------------------
  // The channel
  // ---------------------------------------------------------------------------------------

  class Channel<T> {
    var buffer: array<Option<T>>
    var head: nat
    var tail: nat
    var isClosed: bool
    var producerWaker: Option<Waker>
    var consumerWaker: Option<Waker>

    /** The capacity is `2^bits`. */
    ghost var bits: nat
    /** The queue the ring stands for, and everything ever sent and received. */
    ghost var items: seq<T>
    ghost var sent: seq<T>
    ghost var received: seq<T>
    /** Which ends have been dropped. */
    ghost var producerGone: bool
    ghost var consumerGone: bool

    ghost predicate RingOk()
      reads this, buffer
    {
      && bits <= 63 && buffer.Length == Pow2(bits)
      && Stores(buffer[..], head, items) && Apart(head, tail, |items|)
      && sent == received + items
    }

    /** The ring, and what parking means: a parked consumer has nothing to receive, a parked producer
        no room, and an end that goes takes the other's waker with it. */
    ghost predicate Valid()
      reads this, buffer
    {
      && RingOk()
      && (consumerWaker.Some? ==> items == [])
      && (producerWaker.Some? ==> |items| == buffer.Length)
      && (isClosed <==> producerGone || consumerGone)
      && (producerGone ==> consumerWaker.None?) && (consumerGone ==> producerWaker.None?)
    }

    /** Neither side stays parked when it could proceed: while its own end lives, a parked consumer
        finds no item and an open channel, and a parked producer no room and an open channel. */
    lemma ParkedMeansBlocked()
      requires Valid()
      ensures consumerWaker.Some? && !consumerGone ==> items == [] && !isClosed
      ensures producerWaker.Some? && !producerGone ==> |items| == buffer.Length && !isClosed
      ensures !(consumerWaker.Some? && producerWaker.Some?)
    {
    }

    /** Rounds the size up to a power of two; beyond half a word the source overflows. */
    constructor (size: nat)
      requires size <= WORD / 2
      ensures Valid() && items == [] && !isClosed && !producerGone && !consumerGone && fresh(buffer)
      ensures head == 0 && tail == 0 && size <= buffer.Length && 1 <= buffer.Length <= (if size >= 1 then 2 * size - 1 else 1)
    {
      var n := if size >= 1 then size else 1;
      var cap := NextPow2(n);
      CeilLog2Fits(n);
      bits := CeilLog2(n);
      buffer := new Option<T>[cap](_ => None);
      head, tail, isClosed, producerWaker, consumerWaker := 0, 0, false, None, None;
      items, sent, received, producerGone, consumerGone := [], [], [], false, false;
    }

    function Len(): (n: nat)
      reads this, buffer
      requires RingOk()
      ensures n == |items|
    {
      LengthIs(head, tail, |items|);
      WrapSub(tail, head)
    }

    /** The slot of a counter, by mask. */
    function SlotOf(counter: nat): (slot: nat)
      reads this, buffer
      requires RingOk()
      ensures slot == counter % buffer.Length && slot < buffer.Length
    {
      AndMask(counter, bits);
      And(counter, buffer.Length - 1)
    }

    /** Appends an item unless the ring is full. */
    method Push(item: T) returns (ok: bool)
      requires RingOk()
      modifies this`tail, this`items, this`sent, buffer
      ensures RingOk() && ok == (|old(items)| < buffer.Length)
      ensures items == (if ok then old(items) + [item] else old(items))
      ensures sent == (if ok then old(sent) + [item] else old(sent))
      ensures tail == (if ok then WrapNext(old(tail)) else old(tail))
    {
      if Len() == buffer.Length {
        return false;
      }
      ghost var before := buffer[..];
      buffer[SlotOf(tail)] := Some(item);
      PushOk(before, head, tail, items, item, bits, buffer[..]);
      tail := WrapNext(tail);
      items, sent := items + [item], sent + [item];
      return true;
    }

    /** Takes the oldest item. */
    method Pop() returns (r: Option<T>)
      requires RingOk()
      modifies this`head, this`items, this`received
      ensures RingOk() && (r.None? <==> old(items) == [])
      ensures r.None? ==> items == [] && received == old(received)
      ensures head == (if r.Some? then WrapNext(old(head)) else old(head))
      ensures r.Some? ==> old(items) == [r.value] + items && received == old(received) + [r.value]
    {
      LengthIs(head, tail, |items|);
      if head == tail {
        return None;
      }
      assert Holds(buffer[..], head, items, 0);
      r := buffer[SlotOf(head)];
      PopOk(buffer[..], head, tail, items, bits);
      head := WrapNext(head);
      items, received := items[1..], received + [r.value];
    }

    /** Sends if there is room, and wakes a parked consumer. */
    method TrySend(item: T) returns (r: SendResult<T>, woken: Option<Waker>)
      requires Valid() && !producerGone
      modifies this, buffer
      ensures Valid() && buffer == old(buffer) && Ends(old(isClosed), old(producerGone), old(consumerGone))
      ensures received == old(received) && producerWaker == old(producerWaker)
      ensures r == if old(isClosed) then SendClosed(item) else if |old(items)| == buffer.Length then Full(item) else Sent
      ensures r.Sent? ==> items == old(items) + [item] && woken == old(consumerWaker) && consumerWaker.None?
      ensures !r.Sent? ==> items == old(items) && woken.None? && consumerWaker == old(consumerWaker)
    {
      if isClosed {
        return SendClosed(item), None;
      }
      var ok := Push(item);
      if !ok {
        return Full(item), None;
      }
      woken := consumerWaker;
      consumerWaker := None;
      return Sent, woken;
    }

    /** One poll of a send: parks the producer if the ring is full. */
    method SendPoll(item: T, waker: Waker) returns (r: Poll<SendResult<T>>, woken: Option<Waker>)
      requires Valid() && !producerGone
      modifies this, buffer
      ensures Valid() && buffer == old(buffer) && Ends(old(isClosed), old(producerGone), old(consumerGone))
      ensures received == old(received)
      ensures r == if old(isClosed) then Ready(SendClosed(item)) else if |old(items)| == buffer.Length then Pending else Ready(Sent)
      ensures r == Ready(Sent) ==> items == old(items) + [item] && woken == old(consumerWaker) && consumerWaker.None?
      ensures r != Ready(Sent) ==> items == old(items) && woken.None? && consumerWaker == old(consumerWaker)
      ensures producerWaker == if r.Pending? then Some(waker) else old(producerWaker)
    {
      if isClosed {
        return Ready(SendClosed(item)), None;
      }
      var ok := Push(item);
      if !ok {
        producerWaker := Some(waker);
        return Pending, None;
      }
      woken := consumerWaker;
      consumerWaker := None;
      return Ready(Sent), woken;
    }

    /** Receives if there is an item, and wakes a parked producer. */
    method TryRecv() returns (r: RecvResult<T>, woken: Option<Waker>)
      requires Valid() && !consumerGone
      modifies this
      ensures Valid() && buffer == old(buffer) && Ends(old(isClosed), old(producerGone), old(consumerGone))
      ensures sent == old(sent) && consumerWaker == old(consumerWaker)
      ensures old(items) != [] ==> r == Got(old(items)[0]) && items == old(items)[1..] && woken == old(producerWaker) && producerWaker.None?
      ensures old(items) == [] ==> r == (if isClosed then RecvClosed else Empty) && items == [] && woken.None?
    {
      var x := Pop();
      if x.Some? {
        woken := producerWaker;
        producerWaker := None;
        return Got(x.value), woken;
      }
      return if isClosed then RecvClosed else Empty, None;
    }

    /** One poll of a receive: parks the consumer if there is nothing yet. */
    method RecvPoll(waker: Waker) returns (r: Poll<Option<T>>, woken: Option<Waker>)
      requires Valid() && !consumerGone
      modifies this
      ensures Valid() && buffer == old(buffer) && Ends(old(isClosed), old(producerGone), old(consumerGone))
      ensures sent == old(sent)
      ensures old(items) != [] ==> r == Ready(Some(old(items)[0])) && items == old(items)[1..] && woken == old(producerWaker) && producerWaker.None?
      ensures old(items) == [] ==> r == (if isClosed then Ready(None) else Pending) && items == [] && woken.None?
      ensures consumerWaker == if r.Pending? then Some(waker) else old(consumerWaker)
    {
      var x := Pop();
      if x.Some? {
        woken := producerWaker;
        producerWaker := None;
        return Ready(x), woken;
      }
      if isClosed {
        return Ready(None), None;
      }
      consumerWaker := Some(waker);
      return Pending, None;
    }

    ghost predicate Ends(closed: bool, producer: bool, consumer: bool)
      reads this
    {
      isClosed == closed && producerGone == producer && consumerGone == consumer
    }

    method DropSender() returns (woken: Option<Waker>)
      requires Valid() && !producerGone
      modifies this
      ensures Valid() && buffer == old(buffer) && Ends(true, true, old(consumerGone)) && items == old(items)
      ensures woken == old(consumerWaker) && consumerWaker.None? && producerWaker == old(producerWaker)
    {
      isClosed, producerGone := true, true;
      woken := consumerWaker;
      consumerWaker := None;
    }

    method DropReceiver() returns (woken: Option<Waker>)
      requires Valid() && !consumerGone
      modifies this
      ensures Valid() && buffer == old(buffer) && Ends(true, old(producerGone), true) && items == old(items)
      ensures woken == old(producerWaker) && producerWaker.None? && consumerWaker == old(consumerWaker)
    {
      isClosed, consumerGone := true, true;
      woken := producerWaker;
      producerWaker := None;
    }

    /** Dropping the channel itself hands back whatever was left, in order. */
    method Drain() returns (left: seq<T>)
      requires RingOk()
      modifies this`head, this`items, this`received
      ensures RingOk() && items == [] && left == old(items)
    {
      left := [];
      var x := Pop();
      while x.Some?
        invariant RingOk()
        invariant old(items) == (if x.Some? then left + [x.value] + items else left + items)
        invariant x.None? ==> items == []
        decreases |items|, x.Some?
      {
        left := left + [x.value];
        x := Pop();
      }
    }

    /** How many items are stored before the end of the buffer is reached, as the source tells it from
        the two slots. */
    function FirstRun(): (first: nat)
      reads this, buffer
      requires RingOk() && items != []
      ensures RunOk(head % buffer.Length, first, |items|, buffer.Length)
    {
      ModOfWord(head + |items|, bits);
      Offset(head, |items|, buffer.Length);
      if SlotOf(head) < SlotOf(tail) then Len() else buffer.Length - SlotOf(head)
    }

    /** A buffer of twice the size with the items at its start, copied in one or two runs. */
    method Unwrapped() returns (grown: array<Option<T>>)
      requires RingOk() && items != []
      ensures fresh(grown) && grown.Length == 2 * buffer.Length && Stores(grown[..], 0, items)
    {
      var start, first, count := SlotOf(head), FirstRun(), Len();
      grown := new Option<T>[2 * buffer.Length](_ => None);
      CopyRun(buffer, start, grown, 0, first);
      CopyRun(buffer, 0, grown, first, count - first);
      Copied(buffer[..], head, items, first, grown[..]);
    }

    /** Doubles the buffer of an unbounded channel. The copy is right, but the tail is computed after
        the head was reset: the ring still stands for the same items exactly if the head was 0. */
    method Grow()
      requires RingOk() && items != [] && bits < 63
      modifies this`buffer, this`head, this`tail, this`bits
      ensures fresh(buffer) && buffer.Length == 2 * old(buffer.Length) && Stores(buffer[..], 0, items)
      ensures head == 0 && tail == old(tail)
      ensures old(head) == 0 <==> RingOk()
      ensures old(head) == 0 <==> WrapSub(tail, head) == |items|
    {
      ResetLength(head, tail, |items|);
      buffer := Unwrapped();
      bits := bits + 1;
      head := 0;
      tail := WrapSub(tail, head);
    }
  }

  /** The eight slots an unbounded channel starts with, all filled. */
  method EightItems<T>(x: T) returns (c: Channel<T>)
    ensures fresh(c) && fresh(c.buffer) && c.RingOk() && c.bits == 3 && |c.items| == 8 && c.head == 0 && c.tail == 8
  {
    c := new Channel<T>(8);
    SixteenOrEight(c.bits);
    for i := 0 to 8
      invariant c.RingOk() && c.bits == 3 && fresh(c) && fresh(c.buffer)
      invariant |c.items| == i && c.head == 0 && c.tail == i
    {
      var _ := c.Push(x);
    }
  }

  /** One item received before the ninth is sent, and growing makes the channel claim an item it does
      not have. */
  method GrowingMiscounts<T>(x: T) returns (c: Channel<T>)
    ensures fresh(c) && |c.items| == 8 && c.head == 0 && c.tail == 9 && !c.RingOk()
  {
    c := EightItems(x);
    var _ := c.Pop();
    var _ := c.Push(x);
    c.Grow();
  }

  lemma SixteenOrEight(bits: nat)
    requires 8 <= Pow2(bits) < 16
    ensures bits == 3 && Pow2(bits) == 8
  {
    assert Pow2(2) == 4 && Pow2(3) == 8 && Pow2(4) == 16;
    if bits <= 2 {
      Pow2Mono(bits, 2);
    } else if bits >= 4 {
      Pow2Mono(4, bits);
    }
  }

  /** `copy_nonoverlapping`. */
  method CopyRun<T>(src: array<Option<T>>, from: nat, dst: array<Option<T>>, to: nat, n: nat)
    requires src != dst && from + n <= src.Length && to + n <= dst.Length
    modifies dst
    ensures forall j :: 0 <= j < dst.Length ==> dst[j] == if to <= j < to + n then src[from + j - to] else old(dst[j])
  {
    for i := 0 to n
      invariant forall j :: 0 <= j < dst.Length ==> dst[j] == if to <= j < to + i then src[from + j - to] else old(dst[j])
    {
      dst[to + i] := src[from + i];
    }
  }

  /** A run of `first` out of `n` items from slot `start` on is all of them or reaches the end. */
  predicate RunOk(start: nat, first: nat, n: nat, cap: nat) {
    first <= n && start + first <= cap && (first == n || start + first == cap)
  }

  lemma Copied<T>(buffer: seq<Option<T>>, head: nat, items: seq<T>, first: nat, grown: seq<Option<T>>)
    requires Stores(buffer, head, items) && items != [] && |grown| == 2 * |buffer|
    requires RunOk(head % |buffer|, first, |items|, |buffer|)
    requires forall j :: 0 <= j < first ==> grown[j] == buffer[head % |buffer| + j]
    requires forall j :: first <= j < |items| ==> grown[j] == buffer[j - first]
    ensures Stores(grown, 0, items)
  {
    forall j | 0 <= j < |items|
      ensures Holds(grown, 0, items, j)
    {
      assert Holds(buffer, head, items, j);
      Offset(head, j, |buffer|);
      DivModUnique(j, |grown|, 0, j);
    }
  }

  /** The slot `j` places on, without the remainder. */
  lemma Offset(head: nat, j: nat, cap: nat)
    requires cap > 0 && j <= cap
    ensures var i := head % cap; (head + j) % cap == if i + j < cap then i + j else i + j - cap
  {
    var q, i := head / cap, head % cap;
    assert head == cap * q + i;
    if i + j < cap {
      DivModUnique(head + j, cap, q, i + j);
    } else {
      assert head + j == cap * (q + 1) + (i + j - cap);
      DivModUnique(head + j, cap, q + 1, i + j - cap);
    }
  }

  /** Measured from a head that was reset to 0 first, the length comes out right only if it was 0. */
  lemma ResetLength(head: nat, tail: nat, n: nat)
    requires Apart(head, tail, n)
    ensures WrapSub(tail, 0) == tail && (tail == n <==> head == 0) && (Apart(0, tail, n) <==> head == 0)
  {
  }

  lemma CapacityFits(bits: nat)
    requires bits <= 63
    ensures Pow2(bits) < WORD
  {
    Pow2Of64();
    Pow2Mono(bits, 64);
  }
}
