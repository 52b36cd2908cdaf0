/** The two-level timing wheel on values: entries, slot heads and the linked lists they stand for. */
module WheelSpec {
  import opened Bits
  import opened Prelude
  import opened Sequences

  /** Keys of the slot map; a key is never handed out twice. */
  type Key = nat

  datatype Entry<T> = Entry(item: Option<T>, deadline: nat, next: Option<Key>, level: nat, slotIndex: nat)

  type Tasks<T> = map<Key, Entry<T>>
  type Heads = seq<seq<Option<Key>>>
  type Chains = seq<seq<seq<Key>>>

  // ---------------------------------------------------------------------------------------
  // Linked lists
  // ---------------------------------------------------------------------------------------

  /** Following `next` from `head` visits exactly `chain`. */
  ghost predicate ListOk<T>(tasks: Tasks<T>, head: Option<Key>, chain: seq<Key>) {
    && head == At(chain, 0)
    && (forall k :: k in chain ==> k in tasks)
    && (forall i {:trigger Follows(tasks, chain, i)} :: 0 <= i < |chain| ==> Follows(tasks, chain, i))
    && NoDup(chain)
  }

  ghost predicate Follows<T>(tasks: Tasks<T>, chain: seq<Key>, i: int)
    requires 0 <= i < |chain| && forall k :: k in chain ==> k in tasks
  {
    tasks[chain[i]].next == At(chain, i + 1)
  }

  /** Heads and lists have the same two levels of slots. */
  ghost predicate Shaped(heads: Heads, chains: Chains) {
    && |heads| == 2 && |chains| == 2
    && |chains[0]| == |heads[0]| && |chains[1]| == |heads[1]|
  }

  ghost predicate ValidSlot(heads: Heads, level: nat, slot: nat) {
    |heads| == 2 && level < 2 && slot < |heads[level]|
  }

  ghost predicate ChainOk<T>(tasks: Tasks<T>, heads: Heads, chains: Chains, rest: seq<Key>, level: nat, slot: nat)
    requires Shaped(heads, chains) && ValidSlot(heads, level, slot)
  {
    && ListOk(tasks, heads[level][slot], chains[level][slot])
    && (forall k :: k in chains[level][slot] ==>
          k in tasks && tasks[k].level == level && tasks[k].slotIndex == slot && k !in rest)
  }

  /** Every entry is in the one list its own level and slot index name, except the entries `rest`
      that a traversal has detached. The lists are acyclic and, since an entry names one list,
      pairwise disjoint. */
  ghost predicate Linked<T>(tasks: Tasks<T>, heads: Heads, chains: Chains, rest: seq<Key>) {
    && Shaped(heads, chains)
    && (forall level: nat, slot: nat {:trigger ChainOk(tasks, heads, chains, rest, level, slot)} ::
          ValidSlot(heads, level, slot) ==> ChainOk(tasks, heads, chains, rest, level, slot))
    && (forall k :: k in tasks && k !in rest ==> Placed(tasks, heads, chains, k))
    && (forall k :: k in rest ==> k in tasks)
  }

  ghost predicate Placed<T>(tasks: Tasks<T>, heads: Heads, chains: Chains, k: Key)
    requires Shaped(heads, chains) && k in tasks
  {
    ValidSlot(heads, tasks[k].level, tasks[k].slotIndex) && k in chains[tasks[k].level][tasks[k].slotIndex]
  }

  /** Emptying a slot detaches exactly its list. */
  lemma TakeSlot<T>(tasks: Tasks<T>, heads: Heads, chains: Chains, level: nat, slot: nat, heads': Heads, chains': Chains)
    requires Linked(tasks, heads, chains, []) && ValidSlot(heads, level, slot)
    requires heads' == heads[level := heads[level][slot := None]]
    requires chains' == chains[level := chains[level][slot := []]]
    ensures Linked(tasks, heads', chains', chains[level][slot])
    ensures ListOk(tasks, heads[level][slot], chains[level][slot])
  {
    var rest := chains[level][slot];
    assert ChainOk(tasks, heads, chains, [], level, slot);
    forall l: nat, s: nat | ValidSlot(heads', l, s)
      ensures ChainOk(tasks, heads', chains', rest, l, s)
    {
      assert ChainOk(tasks, heads, chains, [], l, s);
    }
    forall k | k in tasks && k !in rest
      ensures Placed(tasks, heads', chains', k)
    {
      assert Placed(tasks, heads, chains, k);
    }
  }

  lemma ListTail<T>(tasks: Tasks<T>, rest: seq<Key>, tasks': Tasks<T>)
    requires rest != [] && ListOk(tasks, Some(rest[0]), rest)
    requires forall k :: k in rest[1..] ==> k in tasks' && tasks'[k] == tasks[k]
    ensures ListOk(tasks', tasks[rest[0]].next, rest[1..])
  {
    var tail := rest[1..];
    assert Follows(tasks, rest, 0);
    forall i | 0 <= i < |tail|
      ensures Follows(tasks', tail, i)
    {
      assert Follows(tasks, rest, i + 1);
      assert tail[i] == rest[i + 1] && tail[i] in tail;
    }
  }

  /** Removing the first detached entry. */
  lemma RemoveFirst<T>(tasks: Tasks<T>, heads: Heads, chains: Chains, rest: seq<Key>, tasks': Tasks<T>)
    requires Linked(tasks, heads, chains, rest) && rest != [] && ListOk(tasks, Some(rest[0]), rest)
    requires tasks' == tasks - {rest[0]}
    ensures Linked(tasks', heads, chains, rest[1..])
    ensures ListOk(tasks', tasks[rest[0]].next, rest[1..])
  {
    var rest' := rest[1..];
    assert rest == [rest[0]] + rest';
    ListTail(tasks, rest, tasks');
    forall l: nat, s: nat | ValidSlot(heads, l, s)
      ensures ChainOk(tasks', heads, chains, rest', l, s)
    {
      assert ChainOk(tasks, heads, chains, rest, l, s);
      SameList(tasks, heads[l][s], chains[l][s], tasks');
    }
    forall k | k in tasks' && k !in rest'
      ensures Placed(tasks', heads, chains, k)
    {
      assert Placed(tasks, heads, chains, k);
    }
  }

  lemma SameList<T>(tasks: Tasks<T>, head: Option<Key>, chain: seq<Key>, tasks': Tasks<T>)
    requires ListOk(tasks, head, chain)
    requires forall k :: k in chain ==> k in tasks' && tasks'[k] == tasks[k]
    ensures ListOk(tasks', head, chain)
  {
    forall i | 0 <= i < |chain|
      ensures Follows(tasks', chain, i)
    {
      assert Follows(tasks, chain, i) && chain[i] in chain;
    }
  }

  lemma ConsList<T>(tasks: Tasks<T>, head: Option<Key>, chain: seq<Key>, key: Key, tasks': Tasks<T>)
    requires ListOk(tasks, head, chain) && key !in chain
    requires key in tasks' && tasks'[key].next == head
    requires forall k :: k in chain ==> k in tasks' && tasks'[k] == tasks[k]
    ensures ListOk(tasks', Some(key), [key] + chain)
  {
    var chain' := [key] + chain;
    NoDupCons(key, chain);
    forall i | 0 <= i < |chain'|
      ensures Follows(tasks', chain', i)
    {
      if i > 0 {
        assert Follows(tasks, chain, i - 1);
        assert chain'[i] == chain[i - 1] && chain[i - 1] in chain;
      }
    }
  }

  /** Linking the first detached entry at the front of a slot. */
  lemma LinkFirst<T>(tasks: Tasks<T>, heads: Heads, chains: Chains, rest: seq<Key>, level: nat, slot: nat,
                     tasks': Tasks<T>, heads': Heads, chains': Chains)
    requires Linked(tasks, heads, chains, rest) && rest != [] && ListOk(tasks, Some(rest[0]), rest)
    requires ValidSlot(heads, level, slot)
    requires tasks' == tasks[rest[0] := tasks[rest[0]].(next := heads[level][slot], level := level, slotIndex := slot)]
    requires heads' == heads[level := heads[level][slot := Some(rest[0])]]
    requires chains' == chains[level := chains[level][slot := [rest[0]] + chains[level][slot]]]
    ensures Linked(tasks', heads', chains', rest[1..])
    ensures ListOk(tasks', tasks[rest[0]].next, rest[1..])
  {
    var key, rest' := rest[0], rest[1..];
    assert rest == [key] + rest';
    ListTail(tasks, rest, tasks');
    forall l: nat, s: nat | ValidSlot(heads', l, s)
      ensures ChainOk(tasks', heads', chains', rest', l, s)
    {
      assert ChainOk(tasks, heads, chains, rest, l, s);
      if l == level && s == slot {
        ConsList(tasks, heads[level][slot], chains[level][slot], key, tasks');
      } else {
        SameList(tasks, heads[l][s], chains[l][s], tasks');
      }
    }
    forall k | k in tasks' && k !in rest'
      ensures Placed(tasks', heads', chains', k)
    {
      if k != key {
        assert Placed(tasks, heads, chains, k);
      }
    }
  }

  // ---------------------------------------------------------------------------------------
  // Ticks
  // ---------------------------------------------------------------------------------------

  /** The level and slot of a deadline. */
  function Location(deadline: nat, now: nat, capacity: nat, ratio: nat, l1Count: nat): (r: (nat, nat))
    requires capacity > 0 && ratio > 0 && l1Count > 0 && now <= deadline
    ensures r.0 == 0 ==> r.1 < capacity
    ensures r.0 == 1 ==> r.1 < l1Count
    ensures r.0 < 2
  {
    if deadline - now < capacity then (0, deadline % capacity)
    else (1, (deadline / ratio) % l1Count)
  }

  /** The tick at which the L1 slot of a deadline is next cascaded for that deadline's round. */
  function CascadeTick(deadline: nat, ratio: nat): nat
    requires ratio > 0
  {
    deadline / ratio * ratio
  }

  /** What the clock says about an entry: L0 entries are due within the L0 capacity; L1 entries are
      cascaded no later than they are due, provided L1 ticks are no longer than L0 reaches. */
  ghost predicate TimedOk<T>(e: Entry<T>, now: nat, capacity: nat, ratio: nat, l1Count: nat)
    requires capacity > 0 && ratio > 0 && l1Count > 0
  {
    && (e.level == 0 ==> now < e.deadline < now + capacity && e.slotIndex == e.deadline % capacity)
    && (e.level == 1 ==> e.slotIndex == (e.deadline / ratio) % l1Count && (ratio <= capacity ==> now < CascadeTick(e.deadline, ratio)))
  }

  lemma CascadeTickBounds(deadline: nat, ratio: nat)
    requires ratio > 0
    ensures CascadeTick(deadline, ratio) <= deadline < CascadeTick(deadline, ratio) + ratio
  {
    assert deadline == ratio * (deadline / ratio) + deadline % ratio;
  }

  /** A freshly placed entry is timed correctly. */
  lemma PlacedOnTime<T>(e: Entry<T>, now: nat, capacity: nat, ratio: nat, l1Count: nat)
    requires capacity > 0 && ratio > 0 && l1Count > 0 && now < e.deadline
    requires (e.level, e.slotIndex) == Location(e.deadline, now, capacity, ratio, l1Count)
    ensures TimedOk(e, now, capacity, ratio, l1Count)
  {
    CascadeTickBounds(e.deadline, ratio);
  }

  /** Placement can always be on time exactly when an L1 tick is no longer than the L0 capacity:
      otherwise some deadline goes to a slot whose cascade is already past. */
  lemma CascadeAheadIff(capacity: nat, ratio: nat, l1Count: nat)
    requires capacity > 0 && ratio > 0 && l1Count > 0
    ensures (forall now: nat, deadline: nat ::
        now < deadline && Location(deadline, now, capacity, ratio, l1Count).0 == 1 ==> now < CascadeTick(deadline, ratio))
      <==> ratio <= capacity
  {
    if ratio <= capacity {
      forall now: nat, deadline: nat | now < deadline && Location(deadline, now, capacity, ratio, l1Count).0 == 1
        ensures now < CascadeTick(deadline, ratio)
      {
        CascadeTickBounds(deadline, ratio);
      }
    } else {
      assert Location(capacity, 0, capacity, ratio, l1Count).0 == 1;
      DivModUnique(capacity, ratio, 0, capacity);
      assert CascadeTick(capacity, ratio) == 0;
    }
  }

  /** The distance to the next cascade point. */
  lemma NextCascade(now: nat, ratio: nat)
    requires ratio > 0
    ensures var m := (now / ratio + 1) * ratio;
      m == now + (ratio - now % ratio) && now < m && m % ratio == 0 && m / ratio == now / ratio + 1
  {
    assert now == ratio * (now / ratio) + now % ratio;
    assert (now / ratio + 1) * ratio == ratio * (now / ratio) + ratio;
    MulMod(ratio, now / ratio + 1);
  }

  /** No multiple of the ratio lies strictly between two cascade points. */
  lemma MultipleReaches(now: nat, q: nat, ratio: nat)
    requires ratio > 0 && now < q * ratio
    ensures (now / ratio + 1) * ratio <= q * ratio
    ensures q != now / ratio + 1 ==> (now / ratio + 1) * ratio < q * ratio
  {
    var p := now / ratio;
    assert now == ratio * p + now % ratio;
    assert ratio * (q - p) == q * ratio - ratio * p;
    var d := q - p - 1;
    assert q * ratio == (p + 1) * ratio + ratio * d;
    if d >= 1 {
      MulAtLeast(ratio, d);
    }
  }

  // ---------------------------------------------------------------------------------------
  // Deliveries
  // ---------------------------------------------------------------------------------------

  /** What the wheel stands for: from key to deadline and item. */
  datatype Due<T> = Due(deadline: nat, item: T)

  /** The uncancelled entries. */
  ghost function Pending<T>(tasks: Tasks<T>): map<Key, Due<T>> {
    map k | k in tasks && tasks[k].item.Some? :: Due(tasks[k].deadline, tasks[k].item.value)
  }

  ghost function Minus<V>(m: map<Key, V>, ks: seq<Key>): map<Key, V> {
    map k | k in m && k !in ks :: m[k]
  }

  /** `out` lists the items of the distinct keys `fired` of `p`, in order. */
  ghost predicate Delivers<T>(p: map<Key, Due<T>>, fired: seq<Key>, out: seq<T>) {
    && |out| == |fired| && NoDup(fired)
    && (forall i :: 0 <= i < |fired| ==> fired[i] in p && p[fired[i]].item == out[i])
  }

  /** Exactly what is due by tick `until` is delivered, each once. */
  ghost predicate DeliversDue<T>(p: map<Key, Due<T>>, until: nat, fired: seq<Key>, out: seq<T>) {
    Delivers(p, fired, out) && forall k :: k in p ==> (k in fired <==> p[k].deadline <= until)
  }

  lemma DeliversMore<T>(p: map<Key, Due<T>>, fired: seq<Key>, out: seq<T>, p': map<Key, Due<T>>, fired': seq<Key>, out': seq<T>)
    requires Delivers(p, fired, out) && p' == Minus(p, fired) && Delivers(p', fired', out')
    ensures Delivers(p, fired + fired', out + out')
    ensures Minus(p', fired') == Minus(p, fired + fired')
    ensures forall k :: k in fired' ==> k in p'
  {
    forall k | k in fired'
      ensures k in p' && k !in fired
    {
      var i :| 0 <= i < |fired'| && fired'[i] == k;
    }
    forall i, j | 0 <= i < j < |fired + fired'|
      ensures (fired + fired')[i] != (fired + fired')[j]
    {
      if i < |fired| <= j {
        assert fired'[j - |fired|] in fired' && fired[i] in fired;
      }
    }
  }

  lemma DeliversOne<T>(p: map<Key, Due<T>>, fired: seq<Key>, out: seq<T>, p': map<Key, Due<T>>, k: Key)
    requires Delivers(p, fired, out) && p' == Minus(p, fired) && k in p'
    ensures Delivers(p, fired + [k], out + [p'[k].item])
    ensures Minus(p, fired + [k]) == Minus(p', [k])
  {
    DeliversMore(p, fired, out, p', [k], [p'[k].item]);
  }

  lemma DeliversWithout<T>(p: map<Key, Due<T>>, f: seq<Key>, o: seq<T>, j: nat)
    requires Delivers(p, f, o) && j < |f|
    ensures Delivers(p, RemoveAt(f, j), RemoveAt(o, j))
  {
    RemoveAtContents(f, j);
  }

  lemma NonEmptyHasMember(f: seq<Key>)
    requires f != []
    ensures exists k :: k in f
  {
    assert f[0] in f;
  }

  /** Any two deliveries of the same keys hand over the same items, as a multiset. */
  lemma {:induction false} SameKeysSameItems<T>(p: map<Key, Due<T>>, f: seq<Key>, o: seq<T>, f': seq<Key>, o': seq<T>)
    requires Delivers(p, f, o) && Delivers(p, f', o')
    requires forall k :: k in f <==> k in f'
    ensures multiset(o) == multiset(o')
    decreases |f|
  {
    if f == [] {
      if f' != [] {
        NonEmptyHasMember(f');
      }
    } else {
      assert f[0] in f';
      var j: nat :| j < |f'| && f'[j] == f[0];
      RemoveAtContents(f, 0);
      RemoveAtContents(f', j);
      DeliversWithout(p, f, o, 0);
      DeliversWithout(p, f', o', j);
      RemoveAtMultiset(o, 0);
      RemoveAtMultiset(o', j);
      SameKeysSameItems(p, RemoveAt(f, 0), RemoveAt(o, 0), RemoveAt(f', j), RemoveAt(o', j));
    }
  }

  /** Delivering what is due by one tick and then what is due by a later one delivers what is due by the later one. */
  lemma DeliversDueTwice<T>(p: map<Key, Due<T>>, b: nat, c: nat, f1: seq<Key>, o1: seq<T>, f2: seq<Key>, o2: seq<T>)
    requires b <= c && DeliversDue(p, b, f1, o1) && DeliversDue(Minus(p, f1), c, f2, o2)
    ensures DeliversDue(p, c, f1 + f2, o1 + o2)
  {
    DeliversMore(p, f1, o1, Minus(p, f1), f2, o2);
  }

  /** What one advance to a tick delivered. */
  datatype Stage<T> = Stage(until: nat, fired: seq<Key>, out: seq<T>)

  /** Advances one after the other, each delivering what is due by its tick. */
  ghost predicate Staged<T>(p: map<Key, Due<T>>, from: nat, stages: seq<Stage<T>>)
    decreases |stages|
  {
    stages != [] ==>
      && from <= stages[0].until && DeliversDue(p, stages[0].until, stages[0].fired, stages[0].out)
      && Staged(Minus(p, stages[0].fired), stages[0].until, stages[1..])
  }

  ghost function AllFired<T>(stages: seq<Stage<T>>): seq<Key> {
    if stages == [] then [] else stages[0].fired + AllFired(stages[1..])
  }

  ghost function AllOut<T>(stages: seq<Stage<T>>): seq<T> {
    if stages == [] then [] else stages[0].out + AllOut(stages[1..])
  }

  /** Any number of advances deliver together what is due by the tick of the last. */
  lemma {:induction false} StagesDeliverDue<T>(p: map<Key, Due<T>>, from: nat, stages: seq<Stage<T>>)
    requires stages != [] && Staged(p, from, stages)
    ensures from <= stages[|stages| - 1].until
    ensures DeliversDue(p, stages[|stages| - 1].until, AllFired(stages), AllOut(stages))
    decreases |stages|
  {
    var first, rest := stages[0], stages[1..];
    if rest == [] {
      assert AllFired(rest) == [] && AllOut(rest) == [];
      assert AllFired(stages) == first.fired;
      assert AllOut(stages) == first.out;
    } else {
      StagesDeliverDue(Minus(p, first.fired), first.until, rest);
      DeliversDueTwice(p, first.until, rest[|rest| - 1].until, first.fired, first.out, AllFired(rest), AllOut(rest));
    }
  }

  /** However an advance is split, the same items are delivered. */
  lemma SplitAdvance<T>(p: map<Key, Due<T>>, from: nat, stages: seq<Stage<T>>, stages': seq<Stage<T>>)
    requires stages != [] && stages' != [] && stages[|stages| - 1].until == stages'[|stages'| - 1].until
    requires Staged(p, from, stages) && Staged(p, from, stages')
    ensures multiset(AllOut(stages)) == multiset(AllOut(stages'))
  {
    StagesDeliverDue(p, from, stages);
    StagesDeliverDue(p, from, stages');
    SameDueSameItems(p, stages[|stages| - 1].until, AllFired(stages), AllOut(stages), AllFired(stages'), AllOut(stages'));
  }

  lemma SameDueSameItems<T>(p: map<Key, Due<T>>, until: nat, f: seq<Key>, o: seq<T>, f': seq<Key>, o': seq<T>)
    requires DeliversDue(p, until, f, o) && DeliversDue(p, until, f', o')
    ensures multiset(o) == multiset(o')
  {
    FiredArePending(p, f, o);
    FiredArePending(p, f', o');
    SameKeysSameItems(p, f, o, f', o');
  }

  lemma FiredArePending<T>(p: map<Key, Due<T>>, f: seq<Key>, o: seq<T>)
    requires Delivers(p, f, o)
    ensures forall k :: k in f ==> k in p
  {
    forall k | k in f
      ensures k in p
    {
      var i :| 0 <= i < |f| && f[i] == k;
    }
  }

  function Sum(steps: seq<nat>): nat {
    if steps == [] then 0 else steps[0] + Sum(steps[1..])
  }

  /** The inserted keys neither delivered nor cancelled. */
  ghost function Outstanding<T>(inserted: map<Key, Due<T>>, delivered: seq<Key>, cancelled: set<Key>): map<Key, Due<T>> {
    map k | k in inserted && k !in delivered && k !in cancelled :: inserted[k]
  }

  /** Every key inserted is pending, delivered or cancelled, and only one of the three; none was delivered
      twice or before its tick. */
  ghost predicate Accounts<T>(inserted: map<Key, Due<T>>, delivered: seq<Key>, cancelled: set<Key>, pending: map<Key, Due<T>>, now: nat) {
    && NoDup(delivered)
    && (forall k :: k in delivered ==> k in inserted && k !in cancelled && inserted[k].deadline <= now)
    && (forall k :: k in cancelled ==> k in inserted)
    && pending == Outstanding(inserted, delivered, cancelled)
  }

  lemma AccountInsert<T>(inserted: map<Key, Due<T>>, delivered: seq<Key>, cancelled: set<Key>, pending: map<Key, Due<T>>, now: nat, k: Key, due: Due<T>)
    requires Accounts(inserted, delivered, cancelled, pending, now) && k !in inserted
    ensures Accounts(inserted[k := due], delivered, cancelled, pending[k := due], now)
  {
    assert Outstanding(inserted[k := due], delivered, cancelled) == pending[k := due];
  }

  lemma AccountCancel<T>(inserted: map<Key, Due<T>>, delivered: seq<Key>, cancelled: set<Key>, pending: map<Key, Due<T>>, now: nat, k: Key)
    requires Accounts(inserted, delivered, cancelled, pending, now) && k in pending
    ensures Accounts(inserted, delivered, cancelled + {k}, pending - {k}, now)
  {
    assert Outstanding(inserted, delivered, cancelled + {k}) == pending - {k};
  }

  lemma AccountDeliver<T>(inserted: map<Key, Due<T>>, delivered: seq<Key>, cancelled: set<Key>, pending: map<Key, Due<T>>, now: nat, fired: seq<Key>, out: seq<T>, now': nat)
    requires Accounts(inserted, delivered, cancelled, pending, now) && now <= now'
    requires Delivers(pending, fired, out) && forall k :: k in fired ==> k in pending && pending[k].deadline <= now'
    ensures Accounts(inserted, delivered + fired, cancelled, Minus(pending, fired), now')
  {
    OutstandingDeliver(inserted, delivered, cancelled, fired, out);
  }

  lemma OutstandingDeliver<T>(inserted: map<Key, Due<T>>, delivered: seq<Key>, cancelled: set<Key>, fired: seq<Key>, out: seq<T>)
    requires NoDup(delivered) && Delivers(Outstanding(inserted, delivered, cancelled), fired, out)
    ensures Outstanding(inserted, delivered + fired, cancelled) == Minus(Outstanding(inserted, delivered, cancelled), fired)
    ensures NoDup(delivered + fired)
    ensures forall k :: k in fired ==> k in inserted && k !in cancelled
  {
    forall k | k in fired
      ensures k in inserted && k !in cancelled && k !in delivered
    {
      var i :| 0 <= i < |fired| && fired[i] == k;
    }
    forall i, j | 0 <= i < j < |delivered + fired|
      ensures (delivered + fired)[i] != (delivered + fired)[j]
    {
      if i < |delivered| <= j {
        assert fired[j - |delivered|] in fired && delivered[i] in delivered;
      }
    }
  }

  lemma PendingInsert<T>(tasks: Tasks<T>, tasks': Tasks<T>, key: Key)
    requires key in tasks' && tasks' == tasks[key := tasks'[key]] && tasks'[key].item.Some?
    ensures Pending(tasks') == Pending(tasks)[key := Due(tasks'[key].deadline, tasks'[key].item.value)]
  {
  }

  lemma PendingCancel<T>(tasks: Tasks<T>, tasks': Tasks<T>, key: Key)
    requires key in tasks && tasks' == tasks[key := tasks[key].(item := None)]
    ensures Pending(tasks') == Pending(tasks) - {key}
  {
  }

  lemma PendingMinusOne<T>(tasks: Tasks<T>, key: Key)
    requires key in tasks
    ensures Pending(tasks - {key}) == Pending(tasks) - {key}
    ensures key in Pending(tasks) <==> tasks[key].item.Some?
  {
  }

  /** One more delivery, or one more cancelled entry dropped. */
  lemma DropFirst<T>(tasks0: Tasks<T>, fired: seq<Key>, out: seq<T>, tasks: Tasks<T>, key: Key, fired': seq<Key>, out': seq<T>)
    requires Delivers(Pending(tasks0), fired, out) && Pending(tasks) == Minus(Pending(tasks0), fired) && key in tasks
    requires fired' == if tasks[key].item.Some? then fired + [key] else fired
    requires out' == if tasks[key].item.Some? then out + [tasks[key].item.value] else out
    ensures Delivers(Pending(tasks0), fired', out') && Pending(tasks - {key}) == Minus(Pending(tasks0), fired')
  {
    PendingMinusOne(tasks, key);
    if tasks[key].item.Some? {
      DeliversOne(Pending(tasks0), fired, out, Pending(tasks), key);
      assert Minus(Pending(tasks), [key]) == Pending(tasks) - {key};
    } else {
      assert Pending(tasks) - {key} == Pending(tasks);
    }
  }

  /** Relinking an entry changes neither its deadline nor its item. */
  lemma RelinkKeepsPending<T>(tasks: Tasks<T>, tasks': Tasks<T>, key: Key)
    requires key in tasks && key in tasks' && tasks' == tasks[key := tasks'[key]]
    requires tasks'[key].item == tasks[key].item && tasks'[key].deadline == tasks[key].deadline
    ensures Pending(tasks') == Pending(tasks)
  {
  }

  lemma ChainMembers<T>(tasks: Tasks<T>, heads: Heads, chains: Chains, level: nat, slot: nat)
    requires Linked(tasks, heads, chains, []) && ValidSlot(heads, level, slot)
    ensures forall k :: k in chains[level][slot] <==> k in tasks && tasks[k].level == level && tasks[k].slotIndex == slot
  {
    assert ChainOk(tasks, heads, chains, [], level, slot);
    forall k | k in tasks && tasks[k].level == level && tasks[k].slotIndex == slot
      ensures k in chains[level][slot]
    {
      assert Placed(tasks, heads, chains, k);
    }
  }

  // ---------------------------------------------------------------------------------------
  // Traversals of a detached list
  // ---------------------------------------------------------------------------------------

  /** Accounts so far: `fired` was delivered as `out`, and nothing else left the pending entries. */
  ghost predicate Ledger<T>(tasks0: Tasks<T>, tasks: Tasks<T>, fired: seq<Key>, out: seq<T>) {
    Delivers(Pending(tasks0), fired, out) && Pending(tasks) == Minus(Pending(tasks0), fired)
  }

  /** Midway through draining `list`: `rest` is still to come. */
  ghost predicate Draining<T>(tasks0: Tasks<T>, list: seq<Key>, tasks: Tasks<T>, rest: seq<Key>, fired: seq<Key>) {
    && (forall k :: k in rest ==> k in list)
    && (forall k :: k in tasks <==> k in tasks0 && (k in list ==> k in rest))
    && (forall k :: k in tasks ==> tasks[k] == tasks0[k])
    && (forall k :: k in fired ==> k in list)
  }

  lemma DrainStep<T>(tasks0: Tasks<T>, list: seq<Key>, tasks: Tasks<T>, rest: seq<Key>, fired: seq<Key>, fired': seq<Key>)
    requires Draining(tasks0, list, tasks, rest, fired) && rest != [] && NoDup(rest) && rest[0] in tasks
    requires fired' == fired || fired' == fired + [rest[0]]
    ensures Draining(tasks0, list, tasks - {rest[0]}, rest[1..], fired')
  {
    assert rest == [rest[0]] + rest[1..];
    assert rest[0] in rest && rest[0] !in rest[1..];
  }

  lemma Drained<T>(tasks0: Tasks<T>, list: seq<Key>, tasks: Tasks<T>, fired: seq<Key>)
    requires Draining(tasks0, list, tasks, [], fired)
    ensures tasks == Minus(tasks0, list)
  {
  }

  lemma LedgerTrans<T>(tasks0: Tasks<T>, tasks1: Tasks<T>, f1: seq<Key>, o1: seq<T>, tasks2: Tasks<T>, f2: seq<Key>, o2: seq<T>)
    requires Ledger(tasks0, tasks1, f1, o1) && Ledger(tasks1, tasks2, f2, o2)
    ensures Ledger(tasks0, tasks2, f1 + f2, o1 + o2)
  {
    DeliversMore(Pending(tasks0), f1, o1, Pending(tasks1), f2, o2);
  }

  /** L0 has been emptied up to and including tick `bound`. */
  ghost predicate CutByTick<T>(tasks0: Tasks<T>, tasks: Tasks<T>, bound: int) {
    && (forall k :: k in tasks <==> k in tasks0 && !(tasks0[k].level == 0 && tasks0[k].deadline <= bound))
    && (forall k :: k in tasks ==> tasks[k] == tasks0[k])
  }

  /** The L0 slots below `bound` have been emptied. */
  ghost predicate CutBySlot<T>(tasks0: Tasks<T>, tasks: Tasks<T>, bound: int) {
    && (forall k :: k in tasks <==> k in tasks0 && !(tasks0[k].level == 0 && tasks0[k].slotIndex < bound))
    && (forall k :: k in tasks ==> tasks[k] == tasks0[k])
  }

  ghost predicate SlotGone<T>(tasks: Tasks<T>, tasks': Tasks<T>, slot: nat) {
    && (forall k :: k in tasks' <==> k in tasks && !(tasks[k].level == 0 && tasks[k].slotIndex == slot))
    && (forall k :: k in tasks' ==> tasks'[k] == tasks[k])
  }

  ghost predicate AllTimed<T>(tasks: Tasks<T>, now: nat, capacity: nat, ratio: nat, l1Count: nat)
    requires capacity > 0 && ratio > 0 && l1Count > 0
  {
    forall k :: k in tasks ==> TimedOk(tasks[k], now, capacity, ratio, l1Count)
  }

  /** Emptying the slot of tick `now + i` removes exactly the L0 entries due then. */
  lemma CutNextTick<T>(tasks0: Tasks<T>, tasks: Tasks<T>, tasks': Tasks<T>, now: nat, i: nat, capacity: nat, ratio: nat, l1Count: nat)
    requires capacity > 0 && ratio > 0 && l1Count > 0 && 1 <= i < capacity
    requires AllTimed(tasks0, now, capacity, ratio, l1Count)
    requires CutByTick(tasks0, tasks, now + i - 1) && SlotGone(tasks, tasks', (now + i) % capacity)
    ensures CutByTick(tasks0, tasks', now + i)
  {
    forall k | k in tasks0
      ensures k in tasks' <==> !(tasks0[k].level == 0 && tasks0[k].deadline <= now + i)
    {
      var e := tasks0[k];
      assert TimedOk(e, now, capacity, ratio, l1Count);
      if e.level == 0 && e.deadline % capacity == (now + i) % capacity {
        NearResidues(e.deadline, now + i, capacity);
      }
    }
  }

  lemma CutNextSlot<T>(tasks0: Tasks<T>, tasks: Tasks<T>, tasks': Tasks<T>, slot: nat)
    requires CutBySlot(tasks0, tasks, slot) && SlotGone(tasks, tasks', slot)
    ensures CutBySlot(tasks0, tasks', slot + 1)
  {
  }

  /** Emptying every slot removes every L0 entry, all of them due within one turn. */
  lemma CutAllSlots<T>(tasks0: Tasks<T>, tasks: Tasks<T>, now: nat, step: nat, capacity: nat, ratio: nat, l1Count: nat)
    requires capacity > 0 && ratio > 0 && l1Count > 0 && step >= capacity
    requires AllTimed(tasks0, now, capacity, ratio, l1Count) && CutBySlot(tasks0, tasks, capacity)
    ensures CutByTick(tasks0, tasks, now + step)
  {
    forall k | k in tasks0
      ensures k in tasks <==> !(tasks0[k].level == 0 && tasks0[k].deadline <= now + step)
    {
      assert TimedOk(tasks0[k], now, capacity, ratio, l1Count);
    }
  }

  /** Whatever left the pending entries while L0 was cut was due. */
  lemma CutIsDue<T>(tasks0: Tasks<T>, tasks: Tasks<T>, bound: int, fired: seq<Key>, out: seq<T>)
    requires CutByTick(tasks0, tasks, bound) && Ledger(tasks0, tasks, fired, out)
    ensures forall k :: k in fired ==> k in Pending(tasks0) && Pending(tasks0)[k].deadline <= bound
  {
    forall k | k in fired
      ensures k in Pending(tasks0) && Pending(tasks0)[k].deadline <= bound
    {
      var i :| 0 <= i < |fired| && fired[i] == k;
      assert k !in Pending(tasks);
    }
  }

  /** After a step that does not pass a cascade point, an L0 entry left over is still timed; an L1
      entry is too, unless its cascade is now, in the slot now to be cascaded. */
  lemma TimedAfterStep<T>(e: Entry<T>, now: nat, step: nat, capacity: nat, ratio: nat, l1Count: nat)
    requires capacity > 0 && ratio > 0 && l1Count > 0
    requires TimedOk(e, now, capacity, ratio, l1Count)
    requires step <= ratio - now % ratio
    requires e.level == 0 ==> now + step < e.deadline
    ensures TimedOk(e, now + step, capacity, ratio, l1Count)
      || (e.level == 1 && (now + step) % ratio == 0 && e.slotIndex == ((now + step) / ratio) % l1Count)
  {
    if e.level == 1 && ratio <= capacity {
      NextCascade(now, ratio);
      MultipleReaches(now, e.deadline / ratio, ratio);
    }
  }

  lemma TimedAfterCut<T>(tasks0: Tasks<T>, tasks: Tasks<T>, now: nat, step: nat, capacity: nat, ratio: nat, l1Count: nat)
    requires capacity > 0 && ratio > 0 && l1Count > 0 && step <= ratio - now % ratio
    requires AllTimed(tasks0, now, capacity, ratio, l1Count) && CutByTick(tasks0, tasks, now + step)
    ensures forall k :: k in tasks ==> (
      || TimedOk(tasks[k], now + step, capacity, ratio, l1Count)
      || (tasks[k].level == 1 && (now + step) % ratio == 0 && tasks[k].slotIndex == ((now + step) / ratio) % l1Count))
  {
    forall k | k in tasks
      ensures (
        || TimedOk(tasks[k], now + step, capacity, ratio, l1Count)
        || (tasks[k].level == 1 && (now + step) % ratio == 0 && tasks[k].slotIndex == ((now + step) / ratio) % l1Count))
    {
      TimedAfterStep(tasks[k], now, step, capacity, ratio, l1Count);
    }
  }

  /** A step stays within one L1 tick unless it lands on the next cascade point. */
  lemma SameRound(now: nat, step: nat, ratio: nat)
    requires ratio > 0 && 1 <= step <= ratio - now % ratio
    ensures now / ratio <= (now + step) / ratio
    ensures now / ratio == (now + step) / ratio <==> (now + step) % ratio != 0
  {
    NextCascade(now, ratio);
    assert now == ratio * (now / ratio) + now % ratio;
    if step < ratio - now % ratio {
      DivModUnique(now + step, ratio, now / ratio, now % ratio + step);
    }
  }

  /** Until a cascade point is reached, advancing only empties L0. */
  ghost predicate CutWithin<T>(tasks0: Tasks<T>, tick0: nat, tasks: Tasks<T>, now: nat, ratio: nat)
    requires ratio > 0
  {
    tick0 / ratio <= now / ratio && (tick0 / ratio == now / ratio ==> CutByTick(tasks0, tasks, now))
  }

  lemma CutWithinStep<T>(tasks0: Tasks<T>, tick0: nat, tasks: Tasks<T>, now: nat, tasks': Tasks<T>, step: nat, ratio: nat)
    requires ratio > 0 && 1 <= step <= ratio - now % ratio
    requires CutWithin(tasks0, tick0, tasks, now, ratio)
    requires (now + step) % ratio != 0 ==> CutByTick(tasks, tasks', now + step)
    ensures CutWithin(tasks0, tick0, tasks', now + step, ratio)
  {
    SameRound(now, step, ratio);
  }

  lemma LevelsAreTwo<T>(tasks: Tasks<T>, heads: Heads, chains: Chains)
    requires Linked(tasks, heads, chains, [])
    ensures forall k :: k in tasks ==> tasks[k].level < 2
  {
    forall k | k in tasks
      ensures tasks[k].level < 2
    {
      assert Placed(tasks, heads, chains, k);
    }
  }

  /** Midway through cascading `list` at tick `now`. */
  ghost predicate Cascading<T>(tasks0: Tasks<T>, list: seq<Key>, tasks: Tasks<T>, rest: seq<Key>,
                               now: nat, capacity: nat, ratio: nat, l1Count: nat)
    requires capacity > 0 && ratio > 0 && l1Count > 0
  {
    && (forall k :: k in rest ==> k in list)
    && (forall k :: k in tasks <==> k in tasks0 && !(k in list && k !in rest && Spent(tasks0[k], now)))
    && (forall k :: k in tasks && (k !in list || k in rest) ==> tasks[k] == tasks0[k])
    && (forall k :: k in tasks && k in list && k !in rest ==> Moved(tasks0[k], tasks[k], now, capacity, ratio, l1Count))
  }

  /** A cascade drops cancelled entries and delivers the ones due. */
  predicate Spent<T>(e: Entry<T>, now: nat) {
    e.item.None? || e.deadline <= now
  }

  ghost predicate Moved<T>(e: Entry<T>, e': Entry<T>, now: nat, capacity: nat, ratio: nat, l1Count: nat)
    requires capacity > 0 && ratio > 0 && l1Count > 0
  {
    && now < e.deadline && e'.deadline == e.deadline && e'.item == e.item
    && (e'.level, e'.slotIndex) == Location(e.deadline, now, capacity, ratio, l1Count)
  }

  lemma CascadeStep<T>(tasks0: Tasks<T>, list: seq<Key>, tasks: Tasks<T>, rest: seq<Key>, tasks': Tasks<T>,
                       now: nat, capacity: nat, ratio: nat, l1Count: nat)
    requires capacity > 0 && ratio > 0 && l1Count > 0
    requires Cascading(tasks0, list, tasks, rest, now, capacity, ratio, l1Count)
    requires rest != [] && NoDup(rest) && rest[0] in tasks
    requires Spent(tasks[rest[0]], now) ==> tasks' == tasks - {rest[0]}
    requires !Spent(tasks[rest[0]], now) ==> (
      && rest[0] in tasks' && tasks' == tasks[rest[0] := tasks'[rest[0]]]
      && Moved(tasks[rest[0]], tasks'[rest[0]], now, capacity, ratio, l1Count))
    ensures Cascading(tasks0, list, tasks', rest[1..], now, capacity, ratio, l1Count)
  {
    assert rest == [rest[0]] + rest[1..];
    assert rest[0] in rest && rest[0] !in rest[1..];
  }

  /** After the cascade every entry is timed: the moved ones by their new place, the others because
      only the cascaded slot could hold an entry whose cascade is now. */
  lemma TimedAfterCascade<T>(tasks0: Tasks<T>, list: seq<Key>, tasks: Tasks<T>, now: nat, capacity: nat, ratio: nat, l1Count: nat)
    requires capacity > 0 && ratio > 0 && l1Count > 0
    requires Cascading(tasks0, list, tasks, [], now, capacity, ratio, l1Count)
    requires forall k :: k in tasks0 && k !in list ==> TimedOk(tasks0[k], now, capacity, ratio, l1Count)
    ensures AllTimed(tasks, now, capacity, ratio, l1Count)
  {
    forall k | k in tasks
      ensures TimedOk(tasks[k], now, capacity, ratio, l1Count)
    {
      if k in list {
        assert Moved(tasks0[k], tasks[k], now, capacity, ratio, l1Count);
        PlacedOnTime(tasks[k], now, capacity, ratio, l1Count);
      }
    }
  }

  lemma CascadeIsDue<T>(tasks0: Tasks<T>, list: seq<Key>, tasks: Tasks<T>, now: nat, capacity: nat, ratio: nat, l1Count: nat,
                        fired: seq<Key>, out: seq<T>)
    requires capacity > 0 && ratio > 0 && l1Count > 0
    requires Cascading(tasks0, list, tasks, [], now, capacity, ratio, l1Count) && Ledger(tasks0, tasks, fired, out)
    ensures forall k :: k in fired ==> k in Pending(tasks0) && Pending(tasks0)[k].deadline <= now
  {
    forall k | k in fired
      ensures k in Pending(tasks0) && Pending(tasks0)[k].deadline <= now
    {
      var i :| 0 <= i < |fired| && fired[i] == k;
      assert k !in Pending(tasks);
      assert k in tasks ==> tasks[k].item == tasks0[k].item;
    }
  }

  /** One turn of an advance so far: what fired was pending and due, the rest is still pending. */
  ghost predicate DueLedger<T>(tasks0: Tasks<T>, tasks: Tasks<T>, fired: seq<Key>, out: seq<T>, now: nat) {
    && Ledger(tasks0, tasks, fired, out)
    && (forall k :: k in fired ==> k in Pending(tasks0) && Pending(tasks0)[k].deadline <= now)
  }

  lemma DueLedgerTrans<T>(tasks0: Tasks<T>, tasks1: Tasks<T>, f1: seq<Key>, o1: seq<T>, t1: nat,
                          tasks2: Tasks<T>, f2: seq<Key>, o2: seq<T>, t2: nat)
    requires DueLedger(tasks0, tasks1, f1, o1, t1) && DueLedger(tasks1, tasks2, f2, o2, t2) && t1 <= t2
    ensures DueLedger(tasks0, tasks2, f1 + f2, o1 + o2, t2)
  {
    LedgerTrans(tasks0, tasks1, f1, o1, tasks2, f2, o2);
  }

  /** What is handed over on the way from one tick to another is due, and is all that is due if `exact`. */
  ghost predicate OnTime<T>(tasks0: Tasks<T>, tasks: Tasks<T>, fired: seq<Key>, out: seq<T>, now: nat, exact: bool) {
    DueLedger(tasks0, tasks, fired, out, now) && (exact ==> DeliversDue(Pending(tasks0), now, fired, out))
  }

  lemma OnTimeTrans<T>(tasks0: Tasks<T>, tasks1: Tasks<T>, f1: seq<Key>, o1: seq<T>, t1: nat,
                       tasks2: Tasks<T>, f2: seq<Key>, o2: seq<T>, t2: nat, exact: bool)
    requires OnTime(tasks0, tasks1, f1, o1, t1, exact) && OnTime(tasks1, tasks2, f2, o2, t2, exact) && t1 <= t2
    ensures OnTime(tasks0, tasks2, f1 + f2, o1 + o2, t2, exact)
  {
    DueLedgerTrans(tasks0, tasks1, f1, o1, t1, tasks2, f2, o2, t2);
    if exact {
      DeliversDueTwice(Pending(tasks0), t1, t2, f1, o1, f2, o2);
    }
  }

  lemma NothingElseFires<T>(tasks0: Tasks<T>, tasks: Tasks<T>, fired: seq<Key>, out: seq<T>, k: Key)
    requires Ledger(tasks0, tasks, fired, out) && Pending(tasks0).Keys == {k} && k in Pending(tasks)
    ensures fired == [] && out == []
  {
    if fired != [] {
      NonEmptyHasMember(fired);
    }
  }

  /** An advance that ends with every entry timed has delivered everything due. */
  lemma NothingDueIsLeft<T>(tasks0: Tasks<T>, tasks: Tasks<T>, fired: seq<Key>, out: seq<T>,
                            now: nat, capacity: nat, ratio: nat, l1Count: nat)
    requires capacity > 0 && 0 < ratio <= capacity && l1Count > 0
    requires DueLedger(tasks0, tasks, fired, out, now) && AllTimed(tasks, now, capacity, ratio, l1Count)
    requires forall k :: k in tasks ==> tasks[k].level < 2
    ensures DeliversDue(Pending(tasks0), now, fired, out)
  {
    forall k | k in Pending(tasks0) && Pending(tasks0)[k].deadline <= now
      ensures k in fired
    {
      if k !in fired {
        assert k in Pending(tasks);
        assert TimedOk(tasks[k], now, capacity, ratio, l1Count);
        CascadeTickBounds(tasks[k].deadline, ratio);
        assert false;
      }
    }
  }

  // ---------------------------------------------------------------------------------------
  // The order of delivery
  // ---------------------------------------------------------------------------------------

  /** No key comes after one with a later deadline. */
  ghost predicate InOrder<T>(p: map<Key, Due<T>>, fired: seq<Key>) {
    forall i, j :: 0 <= i < j < |fired| && fired[i] in p && fired[j] in p ==> p[fired[i]].deadline <= p[fired[j]].deadline
  }

  /** Every key has a deadline from `low` to `high`. */
  ghost predicate Spans<T>(p: map<Key, Due<T>>, fired: seq<Key>, low: int, high: int) {
    forall k :: k in fired ==> k in p && low <= p[k].deadline <= high
  }

  /** The entries that are delivered when a list is drained, in list order. */
  ghost function Uncancelled<T>(tasks: Tasks<T>, list: seq<Key>): seq<Key> {
    if list == [] then []
    else (if list[0] in tasks && tasks[list[0]].item.Some? then [list[0]] else []) + Uncancelled(tasks, list[1..])
  }

  /** Draining a list, with `rest` to come, has delivered what comes before it. */
  ghost predicate ListOrder<T>(tasks0: Tasks<T>, list: seq<Key>, rest: seq<Key>, fired: seq<Key>) {
    fired + Uncancelled(tasks0, rest) == Uncancelled(tasks0, list)
  }

  lemma ListOrderStep<T>(tasks0: Tasks<T>, list: seq<Key>, tasks: Tasks<T>, rest: seq<Key>, fired: seq<Key>, fired': seq<Key>)
    requires ListOrder(tasks0, list, rest, fired) && rest != [] && rest[0] in tasks && rest[0] in tasks0 && tasks[rest[0]] == tasks0[rest[0]]
    requires fired' == if tasks[rest[0]].item.Some? then fired + [rest[0]] else fired
    ensures ListOrder(tasks0, list, rest[1..], fired')
  {
    var more := Uncancelled(tasks0, rest[1..]);
    if tasks[rest[0]].item.Some? {
      assert Uncancelled(tasks0, rest) == [rest[0]] + more;
      assert fired + ([rest[0]] + more) == fired' + more;
    } else {
      assert Uncancelled(tasks0, rest) == [] + more == more;
    }
  }

  lemma ListOrderEnds<T>(tasks0: Tasks<T>, list: seq<Key>, fired: seq<Key>)
    requires ListOrder(tasks0, list, [], fired)
    ensures fired == Uncancelled(tasks0, list)
  {
    assert fired + [] == fired;
  }

  lemma OrderJoins<T>(p: map<Key, Due<T>>, f1: seq<Key>, p': map<Key, Due<T>>, f2: seq<Key>, low: int, mid: int, high: int)
    requires InOrder(p, f1) && Spans(p, f1, low, mid) && InOrder(p', f2) && Spans(p', f2, mid, high)
    requires forall k :: k in p' ==> k in p && p[k] == p'[k]
    ensures InOrder(p, f1 + f2)
  {
    forall i, j | 0 <= i < j < |f1 + f2|
      ensures (f1 + f2)[i] in p && (f1 + f2)[j] in p && p[(f1 + f2)[i]].deadline <= p[(f1 + f2)[j]].deadline
    {
      if j < |f1| {
        assert f1[i] in f1 && f1[j] in f1;
      } else if i < |f1| {
        assert f1[i] in f1 && f2[j - |f1|] in f2;
      } else {
        assert f2[i - |f1|] in f2 && f2[j - |f1|] in f2;
      }
    }
  }

  lemma SameDeadlineInOrder<T>(p: map<Key, Due<T>>, f: seq<Key>, at: int)
    requires Spans(p, f, at, at)
    ensures InOrder(p, f)
  {
    forall i, j | 0 <= i < j < |f|
      ensures f[i] in p && f[j] in p && p[f[i]].deadline <= p[f[j]].deadline
    {
      assert f[i] in f && f[j] in f;
    }
  }

  /** What the slot of a tick delivers has that deadline. */
  lemma TickSpans<T>(start: Tasks<T>, tasks: Tasks<T>, tasks': Tasks<T>, bound: int, f: seq<Key>, o: seq<T>)
    requires CutByTick(start, tasks, bound) && CutByTick(start, tasks', bound + 1) && Ledger(tasks, tasks', f, o)
    ensures Spans(Pending(tasks), f, bound + 1, bound + 1)
  {
    forall k | k in f
      ensures k in Pending(tasks) && Pending(tasks)[k].deadline == bound + 1
    {
      var i :| 0 <= i < |f| && f[i] == k;
      assert k in Pending(tasks) && k !in Pending(tasks');
      assert k in tasks && k in start && tasks[k] == start[k];
    }
  }

  /** Delivered in the order of the deadlines, which lie from `low` to `high`. */
  ghost predicate Orderly<T>(p: map<Key, Due<T>>, fired: seq<Key>, low: int, high: int) {
    InOrder(p, fired) && Spans(p, fired, low, high)
  }

  lemma OrderlyJoins<T>(tasks0: Tasks<T>, f1: seq<Key>, o1: seq<T>, tasks1: Tasks<T>, f2: seq<Key>, low: int, mid: int, high: int)
    requires Ledger(tasks0, tasks1, f1, o1) && low <= mid <= high
    requires Orderly(Pending(tasks0), f1, low, mid) && Orderly(Pending(tasks1), f2, mid, high)
    ensures Orderly(Pending(tasks0), f1 + f2, low, high)
  {
    OrderJoins(Pending(tasks0), f1, Pending(tasks1), f2, low, mid, high);
  }

  /** One more tick: what it delivers comes after what was delivered before. */
  lemma TickInOrder<T>(start: Tasks<T>, tasks: Tasks<T>, tasks': Tasks<T>, low: int, bound: int, fired: seq<Key>, out: seq<T>, f: seq<Key>, o: seq<T>)
    requires CutByTick(start, tasks, bound) && CutByTick(start, tasks', bound + 1) && low <= bound + 1
    requires Ledger(start, tasks, fired, out) && Ledger(tasks, tasks', f, o) && Orderly(Pending(start), fired, low, bound)
    ensures Orderly(Pending(start), fired + f, low, bound + 1)
  {
    TickSpans(start, tasks, tasks', bound, f, o);
    SameDeadlineInOrder(Pending(tasks), f, bound + 1);
    OrderlyJoins(start, fired, out, tasks, f, low, bound + 1, bound + 1);
  }

  /** At a multiple of the capacity the slots come in the order of their ticks. */
  lemma SlotsAreTicks<T>(tasks0: Tasks<T>, tasks: Tasks<T>, slot: nat, now: nat, capacity: nat, ratio: nat, l1Count: nat)
    requires capacity > 0 && ratio > 0 && l1Count > 0 && now % capacity == 0 && slot <= capacity
    requires AllTimed(tasks0, now, capacity, ratio, l1Count) && CutBySlot(tasks0, tasks, slot)
    ensures CutByTick(tasks0, tasks, now + slot - 1)
  {
    forall k | k in tasks0
      ensures k in tasks <==> !(tasks0[k].level == 0 && tasks0[k].deadline <= now + slot - 1)
    {
      var e := tasks0[k];
      assert TimedOk(e, now, capacity, ratio, l1Count);
      if e.level == 0 {
        DivModUnique(e.deadline, capacity, now / capacity, e.deadline - now);
      }
    }
  }

  /** One more slot, at a multiple of the capacity. */
  lemma SlotInOrder<T>(start: Tasks<T>, tasks: Tasks<T>, tasks': Tasks<T>, slot: nat, now: nat, capacity: nat, ratio: nat, l1Count: nat,
                       fired: seq<Key>, out: seq<T>, f: seq<Key>, o: seq<T>)
    requires capacity > 0 && ratio > 0 && l1Count > 0 && now % capacity == 0 && slot < capacity
    requires AllTimed(start, now, capacity, ratio, l1Count) && CutBySlot(start, tasks, slot) && CutBySlot(start, tasks', slot + 1)
    requires Ledger(start, tasks, fired, out) && Ledger(tasks, tasks', f, o) && Orderly(Pending(start), fired, now, now + slot - 1)
    ensures Orderly(Pending(start), fired + f, now, now + slot)
  {
    SlotsAreTicks(start, tasks, slot, now, capacity, ratio, l1Count);
    SlotsAreTicks(start, tasks', slot + 1, now, capacity, ratio, l1Count);
    TickInOrder(start, tasks, tasks', now, now + slot - 1, fired, out, f, o);
  }

  /** A jump that covers a whole turn, if an L1 tick fits in L0, starts at a multiple of the capacity. */
  lemma WholeTurnStarts(now: nat, step: nat, capacity: nat, ratio: nat)
    requires 0 < ratio <= capacity <= step <= ratio - now % ratio
    ensures now % capacity == 0
  {
  }

  /** What a jump to at most the next cascade point leaves is due at its end or later. */
  lemma LaterIsLeft<T>(e: Entry<T>, now: nat, step: nat, capacity: nat, ratio: nat, l1Count: nat)
    requires capacity > 0 && 0 < ratio <= capacity && l1Count > 0 && TimedOk(e, now, capacity, ratio, l1Count)
    requires e.level < 2 && step <= ratio - now % ratio && (e.level == 0 ==> now + step < e.deadline)
    ensures now + step <= e.deadline
  {
    if e.level == 1 {
      CascadeTickBounds(e.deadline, ratio);
      NextCascade(now, ratio);
      MultipleReaches(now, e.deadline / ratio, ratio);
    }
  }

  /** What the cascade delivers is due right then. */
  lemma CascadeInOrder<T>(tasks0: Tasks<T>, tasks: Tasks<T>, tasks': Tasks<T>, now: nat, step: nat, capacity: nat, ratio: nat, l1Count: nat,
                          fired: seq<Key>, out: seq<T>, f: seq<Key>, o: seq<T>)
    requires capacity > 0 && 0 < ratio <= capacity && l1Count > 0 && step <= ratio - now % ratio
    requires AllTimed(tasks0, now, capacity, ratio, l1Count) && CutByTick(tasks0, tasks, now + step) && forall k :: k in tasks ==> tasks[k].level < 2
    requires Ledger(tasks0, tasks, fired, out) && DueLedger(tasks, tasks', f, o, now + step)
    requires Orderly(Pending(tasks0), fired, now, now + step)
    ensures Orderly(Pending(tasks0), fired + f, now, now + step)
  {
    forall k | k in f
      ensures k in Pending(tasks) && Pending(tasks)[k].deadline == now + step
    {
      assert TimedOk(tasks0[k], now, capacity, ratio, l1Count);
      LaterIsLeft(tasks[k], now, step, capacity, ratio, l1Count);
    }
    SameDeadlineInOrder(Pending(tasks), f, now + step);
    OrderlyJoins(tasks0, fired, out, tasks, f, now, now + step, now + step);
  }

  /** The whole log stays in order: what an advance delivers was pending, so it comes later. */
  lemma LogInOrder<T>(inserted: map<Key, Due<T>>, delivered: seq<Key>, cancelled: set<Key>, pending: map<Key, Due<T>>, now: nat, fired: seq<Key>, now': nat)
    requires Accounts(inserted, delivered, cancelled, pending, now) && InOrder(inserted, delivered)
    requires Orderly(pending, fired, now, now')
    ensures InOrder(inserted, delivered + fired)
  {
    forall i, j | 0 <= i < j < |delivered + fired|
      ensures (delivered + fired)[i] in inserted && (delivered + fired)[j] in inserted
      ensures inserted[(delivered + fired)[i]].deadline <= inserted[(delivered + fired)[j]].deadline
    {
      if j < |delivered| {
        assert delivered[i] in delivered && delivered[j] in delivered;
      } else if i < |delivered| {
        assert delivered[i] in delivered && fired[j - |delivered|] in fired;
      } else {
        assert fired[i - |delivered|] in fired && fired[j - |delivered|] in fired;
      }
    }
  }

  /** The account of a wheel; if `exact`, with everything delivered in order. */
  ghost predicate Books<T>(inserted: map<Key, Due<T>>, delivered: seq<Key>, cancelled: set<Key>, pending: map<Key, Due<T>>, now: nat, exact: bool) {
    Accounts(inserted, delivered, cancelled, pending, now) && (exact ==> InOrder(inserted, delivered))
  }

  lemma BookInsert<T>(inserted: map<Key, Due<T>>, delivered: seq<Key>, cancelled: set<Key>, pending: map<Key, Due<T>>, now: nat, exact: bool, k: Key, due: Due<T>)
    requires Books(inserted, delivered, cancelled, pending, now, exact) && k !in inserted
    ensures Books(inserted[k := due], delivered, cancelled, pending[k := due], now, exact)
  {
    AccountInsert(inserted, delivered, cancelled, pending, now, k, due);
  }

  lemma BookCancel<T>(inserted: map<Key, Due<T>>, delivered: seq<Key>, cancelled: set<Key>, pending: map<Key, Due<T>>, now: nat, exact: bool, k: Key)
    requires Books(inserted, delivered, cancelled, pending, now, exact) && k in pending
    ensures Books(inserted, delivered, cancelled + {k}, pending - {k}, now, exact)
  {
    AccountCancel(inserted, delivered, cancelled, pending, now, k);
  }

  lemma BookDeliver<T>(inserted: map<Key, Due<T>>, delivered: seq<Key>, cancelled: set<Key>, pending: map<Key, Due<T>>, now: nat, exact: bool,
                       fired: seq<Key>, out: seq<T>, now': nat)
    requires Books(inserted, delivered, cancelled, pending, now, exact) && now <= now'
    requires Delivers(pending, fired, out) && forall k :: k in fired ==> k in pending && pending[k].deadline <= now'
    requires exact ==> Orderly(pending, fired, now, now')
    ensures Books(inserted, delivered + fired, cancelled, Minus(pending, fired), now', exact)
  {
    AccountDeliver(inserted, delivered, cancelled, pending, now, fired, out, now');
    if exact {
      LogInOrder(inserted, delivered, cancelled, pending, now, fired, now');
    }
  }
}
