/** Probing the shards of a chunk: the permuted visiting order and the two-phase search. */
module ShardProbe {
  import opened Bits
  import opened Words
  import opened Dyadic
  import opened Prelude
  import opened BuddySpec
  import opened BuddyAllocation
  import opened FreeListMemory
  import CS = ChunkSpec

  /** `(hash >> 16) | 1`. */
  function Stride(hash: nat): (r: nat)
    ensures r % 2 == 1 && r / 2 == hash / 131072
  {
    var h := hash / 65536;
    if h % 2 == 0 then h + 1 else h
  }

  /** The shard visited at turn `i`, with the source's wrapping word arithmetic and mask. */
  function ProbeIndex(hash: nat, shardCount: nat, i: nat): nat
    requires shardCount >= 1
  {
    var mask := shardCount - 1;
    And((And(hash, mask) + (i * Stride(hash)) % WORD) % WORD, mask)
  }

  lemma {:induction false} OddFactorCancels(d: nat, odd: nat, k: nat)
    requires odd % 2 == 1 && (d * odd) % Pow2(k) == 0
    ensures d % Pow2(k) == 0
    decreases k
  {
    if k > 0 {
      var m := Pow2(k - 1);
      HalfMod(d * odd, m);
      ProductParity(d, odd);
      assert d % 2 == 0;
      var e := d / 2;
      assert d == 2 * e;
      assert d * odd == 2 * (e * odd);
      OddFactorCancels(e, odd, k - 1);
      HalfMod(d, m);
    }
  }

  lemma ProductParity(d: nat, odd: nat)
    requires odd % 2 == 1
    ensures (d * odd) % 2 == d % 2
  {
    var q := odd / 2;
    assert odd == 2 * q + 1;
    assert d * odd == 2 * (d * q) + d;
  }

  /** Without the word arithmetic: start plus `i` strides, modulo the number of shards. */
  lemma ProbeIs(hash: nat, k: nat, i: nat)
    requires k <= 64
    ensures ProbeIndex(hash, Pow2(k), i) == (hash + i * Stride(hash)) % Pow2(k)
  {
    ProbeOfStep(hash, k, i * Stride(hash));
  }

  lemma ProbeOfStep(hash: nat, k: nat, step: nat)
    requires k <= 64
    ensures And((And(hash, Pow2(k) - 1) + step % WORD) % WORD, Pow2(k) - 1) == (hash + step) % Pow2(k)
  {
    var n := Pow2(k);
    var low := step % WORD;
    AndMask(hash, k);
    AndMask((hash % n + low) % WORD, k);
    ModOfWord(hash % n + low, k);
    SumMod(hash, low, n);
    SumMod(low, hash, n);
    ModOfWord(step, k);
    SumMod(step, hash, n);
  }

  lemma SameRemainder(a: nat, b: nat, n: nat)
    requires n > 0 && a <= b && a % n == b % n
    ensures (b - a) % n == 0
  {
    assert a == n * (a / n) + a % n && b == n * (b / n) + b % n;
    assert b - a == n * (b / n - a / n);
    MulMod(n, b / n - a / n);
  }

  lemma StridesDiffer(start: nat, s: nat, k: nat, i: nat, j: nat)
    requires s % 2 == 1 && i < j < Pow2(k)
    ensures (start + i * s) % Pow2(k) != (start + j * s) % Pow2(k)
  {
    var d, n := j - i, Pow2(k);
    var a, e := start + i * s, d * s;
    assert start + j * s == a + e by {
      assert j * s == i * s + d * s;
    }
    if a % n == (a + e) % n {
      SameRemainder(a, a + e, n);
      OddFactorCancels(d, s, k);
      DivModUnique(d, n, 0, d);
      assert false;
    }
  }

  /** Different turns visit different shards. */
  lemma ProbesDiffer(hash: nat, k: nat, i: nat, j: nat)
    requires k <= 64 && i < j < Pow2(k)
    ensures ProbeIndex(hash, Pow2(k), i) != ProbeIndex(hash, Pow2(k), j)
  {
    ProbeIs(hash, k, i);
    ProbeIs(hash, k, j);
    StridesDiffer(hash, Stride(hash), k, i, j);
  }

  /** The numbers below `n`. */
  function Below(n: nat): (r: set<nat>)
    ensures forall v: nat :: v in r <==> v < n
    ensures |r| == n
  {
    if n == 0 then {} else Below(n - 1) + {n - 1}
  }

  function Elements(f: seq<nat>): (r: set<nat>)
    ensures forall x :: x in r <==> x in f
  {
    if f == [] then {} else Elements(f[1..]) + {f[0]}
  }

  lemma {:induction false} ElementsSize(f: seq<nat>)
    requires NoDup(f)
    ensures |Elements(f)| == |f|
  {
    if f != [] {
      ElementsSize(f[1..]);
      assert f[0] !in f[1..];
    }
  }

  /** `n` different numbers below `n` are all of them. */
  lemma Pigeonhole(n: nat, f: seq<nat>)
    requires |f| == n && NoDup(f) && forall i :: 0 <= i < n ==> f[i] < n
    ensures forall v: nat :: v < n ==> v in f
  {
    ElementsSize(f);
    SubsetOfSameSize(Elements(f), Below(n));
  }

  lemma SubsetOfSameSize(a: set<nat>, b: set<nat>)
    requires a <= b && |a| == |b|
    ensures a == b
  {
    var rest := b - a;
    assert b == a + rest;
    assert |b| == |a| + |rest|;
  }

  /** In `2^k` turns every shard is visited, each exactly once. */
  lemma ProbeVisitsEveryShardOnce(hash: nat, k: nat, shard: nat)
    requires k <= 64 && shard < Pow2(k)
    ensures exists i: nat :: i < Pow2(k) && ProbeIndex(hash, Pow2(k), i) == shard
    ensures forall i: nat, j: nat :: i < j < Pow2(k) ==> ProbeIndex(hash, Pow2(k), i) != ProbeIndex(hash, Pow2(k), j)
  {
    var n := Pow2(k);
    var f := seq(n, i requires 0 <= i < n => ProbeIndex(hash, n, i));
    forall i: nat, j: nat | i < j < n
      ensures ProbeIndex(hash, n, i) != ProbeIndex(hash, n, j)
    {
      ProbesDiffer(hash, k, i, j);
    }
    forall i | 0 <= i < n
      ensures f[i] < n
    {
      ProbeInRange(hash, k, i);
    }
    Pigeonhole(n, f);
    assert shard in f;
  }

  lemma ProbeInRange(hash: nat, k: nat, i: nat)
    requires k <= 64
    ensures ProbeIndex(hash, Pow2(k), i) < Pow2(k)
  {
    ProbeIs(hash, k, i);
  }

  // ---------------------------------------------------------------------------------------
  // The search
  // ---------------------------------------------------------------------------------------

  /** No aligned run of `2^order` slots is free given these live blocks. */
  ghost predicate MustRefuse(live: map<nat, nat>, total: nat, order: nat) {
    order > MAX_ORDER || forall start: nat :: !FreeRun(live, total, Block(start, order))
  }

  /** Shard `i` gains the live block at `local`. */
  ghost function WithLive(lives: seq<map<nat, nat>>, i: nat, local: nat, order: nat): seq<map<nat, nat>>
    requires i < |lives|
  {
    var live: map<nat, nat> := lives[i][local := order];
    lives[i := live]
  }

  /** The block `[local, local + 2^order)` of shard `i` was free and is now live; nothing else
      changed hands. */
  ghost predicate Placed(before: seq<map<nat, nat>>, after: seq<map<nat, nat>>, total: nat, order: nat, i: nat, local: nat) {
    i < |before| && order <= MAX_ORDER && FreeRun(before[i], total, Block(local, order)) && after == WithLive(before, i, local, order)
  }

  /** `order` lists the shards by turn. */
  ghost predicate InOrder(order: seq<nat>, hash: nat, n: nat)
    requires n >= 1
  {
    |order| == n && forall t: nat {:trigger ProbeIndex(hash, n, t)} :: t < n ==> ProbeIndex(hash, n, t) == order[t]
  }

  /** The shards in probe order. */
  ghost function Visits(hash: nat, n: nat): (order: seq<nat>)
    requires n >= 1
    ensures InOrder(order, hash, n)
  {
    seq(n, t requires 0 <= t < n => ProbeIndex(hash, n, t))
  }

  /** The shards of the first `turn` turns must all refuse. */
  ghost predicate RefusedUpTo(lives: seq<map<nat, nat>>, visits: seq<nat>, turn: nat, total: nat, order: nat) {
    forall t :: 0 <= t < turn && t < |visits| && visits[t] < |lives| ==> MustRefuse(lives[visits[t]], total, order)
  }

  lemma RefusedNext(lives: seq<map<nat, nat>>, visits: seq<nat>, turn: nat, total: nat, order: nat)
    requires RefusedUpTo(lives, visits, turn, total, order)
    requires turn < |visits| && visits[turn] < |lives| && MustRefuse(lives[visits[turn]], total, order)
    ensures RefusedUpTo(lives, visits, turn + 1, total, order)
  {
  }

  lemma RefusedAll(lives: seq<map<nat, nat>>, visits: seq<nat>, total: nat, order: nat)
    requires RefusedUpTo(lives, visits, |visits|, total, order) && forall i :: 0 <= i < |lives| ==> i in visits
    ensures forall i :: 0 <= i < |lives| ==> MustRefuse(lives[i], total, order)
  {
    forall i | 0 <= i < |lives|
      ensures MustRefuse(lives[i], total, order)
    {
      assert i in visits;
      var t :| 0 <= t < |visits| && visits[t] == i;
    }
  }

  /** Every shard of the turns before `turn` that is open to us must refuse. */
  ghost predicate PassedOver(lives: seq<map<nat, nat>>, visits: seq<nat>, open: nat -> bool, turn: nat, total: nat, order: nat) {
    forall t: nat :: t < turn && t < |visits| && open(t) && visits[t] < |lives| ==> MustRefuse(lives[visits[t]], total, order)
  }

  /** Shard `i` is the first one open to us that need not refuse. */
  ghost predicate First(lives: seq<map<nat, nat>>, visits: seq<nat>, open: nat -> bool, total: nat, order: nat, i: nat) {
    exists turn: nat :: turn < |visits| && open(turn) && visits[turn] == i && PassedOver(lives, visits, open, turn, total, order)
  }

  function Always(): nat -> bool {
    _ => true
  }

  lemma PassedNext(lives: seq<map<nat, nat>>, visits: seq<nat>, open: nat -> bool, turn: nat, total: nat, order: nat)
    requires PassedOver(lives, visits, open, turn, total, order)
    requires turn < |visits| && visits[turn] < |lives| && (open(turn) ==> MustRefuse(lives[visits[turn]], total, order))
    ensures PassedOver(lives, visits, open, turn + 1, total, order)
  {
  }

  lemma FirstIs(lives: seq<map<nat, nat>>, visits: seq<nat>, open: nat -> bool, turn: nat, total: nat, order: nat)
    requires PassedOver(lives, visits, open, turn, total, order) && turn < |visits| && open(turn)
    ensures First(lives, visits, open, total, order, visits[turn])
  {
  }

  /** The shard that serves a request: the first in probe order whose lock is free and that can, or else the first
      that can. */
  ghost predicate Serves(lives: seq<map<nat, nat>>, visits: seq<nat>, tryLock: nat -> bool, total: nat, order: nat, i: nat) {
    || First(lives, visits, tryLock, total, order, i)
    || (PassedOver(lives, visits, tryLock, |visits|, total, order) && First(lives, visits, Always(), total, order, i))
  }

  // ---------------------------------------------------------------------------------------
  // Other threads allocating meanwhile
  // ---------------------------------------------------------------------------------------

  /** Nothing that was live has been freed. */
  ghost predicate Grown(live: map<nat, nat>, live': map<nat, nat>) {
    forall i :: i in live ==> i in live' && live'[i] == live[i]
  }

  ghost predicate AllGrown(lives: seq<map<nat, nat>>, lives': seq<map<nat, nat>>) {
    |lives'| == |lives| && forall i :: 0 <= i < |lives| ==> Grown(lives[i], lives'[i])
  }

  /** No shard can give a block of this order. */
  ghost predicate AllRefuse(lives: seq<map<nat, nat>>, total: nat, order: nat) {
    forall i :: 0 <= i < |lives| ==> MustRefuse(lives[i], total, order)
  }

  /** A shard that must refuse still must after more was allocated in it. */
  lemma RefusalGrows(live: map<nat, nat>, live': map<nat, nat>, total: nat, order: nat)
    requires MustRefuse(live, total, order) && Grown(live, live')
    ensures MustRefuse(live', total, order)
  {
    assert forall b :: b in LiveBlocks(live) ==> b in LiveBlocks(live');
    forall start: nat
      ensures FreeRun(live', total, Block(start, order)) ==> FreeRun(live, total, Block(start, order))
    {
    }
  }

  lemma RefusedUpToGrows(lives: seq<map<nat, nat>>, lives': seq<map<nat, nat>>, visits: seq<nat>, turn: nat, total: nat, order: nat)
    requires AllGrown(lives, lives') && RefusedUpTo(lives, visits, turn, total, order)
    ensures RefusedUpTo(lives', visits, turn, total, order)
  {
    forall t | 0 <= t < turn && t < |visits| && visits[t] < |lives|
      ensures MustRefuse(lives'[visits[t]], total, order)
    {
      RefusalGrows(lives[visits[t]], lives'[visits[t]], total, order);
    }
  }

  /** Placing a block frees nothing. */
  lemma PlacedGrows(before: seq<map<nat, nat>>, after: seq<map<nat, nat>>, total: nat, order: nat, i: nat, local: nat)
    requires Placed(before, after, total, order, i, local)
    ensures AllGrown(before, after)
  {
    assert local in before[i] ==> Block(local, before[i][local]) in LiveBlocks(before[i]);
  }

  lemma AllGrownTrans(a: seq<map<nat, nat>>, b: seq<map<nat, nat>>, c: seq<map<nat, nat>>)
    requires AllGrown(a, b) && AllGrown(b, c)
    ensures AllGrown(a, c)
  {
    forall i | 0 <= i < |a|
      ensures Grown(a[i], c[i])
    {
      assert Grown(a[i], b[i]) && Grown(b[i], c[i]);
    }
  }

  /** Over any history of the shards' live blocks in which nothing is freed: if the shard of each turn must
      refuse at its turn, then in the end every shard must. */
  lemma RefusalDespiteAllocations(hash: nat, k: nat, history: seq<seq<map<nat, nat>>>, total: nat, order: nat)
    requires k <= 64 && |history| == Pow2(k) + 1 && forall t :: 0 <= t < |history| ==> |history[t]| == Pow2(k)
    requires forall t :: 0 <= t < Pow2(k) ==> AllGrown(history[t], history[t + 1])
    requires forall t: nat :: t < Pow2(k) ==>
      ProbeIndex(hash, Pow2(k), t) < Pow2(k) && MustRefuse(history[t][ProbeIndex(hash, Pow2(k), t)], total, order)
    ensures AllRefuse(history[Pow2(k)], total, order)
  {
    var n := Pow2(k);
    forall i | 0 <= i < n
      ensures MustRefuse(history[n][i], total, order)
    {
      ProbeVisitsEveryShardOnce(hash, k, i);
      var t: nat :| t < n && ProbeIndex(hash, n, t) == i;
      HistoryGrows(history, t, n, i);
      RefusalGrows(history[t][i], history[n][i], total, order);
    }
  }

  lemma {:induction false} HistoryGrows(history: seq<seq<map<nat, nat>>>, t: nat, u: nat, i: nat)
    requires t <= u < |history| && (forall j :: 0 <= j < |history| ==> i < |history[j]|)
    requires forall j :: 0 <= j < |history| - 1 ==> AllGrown(history[j], history[j + 1])
    ensures Grown(history[t][i], history[u][i])
    decreases u - t
  {
    if t < u {
      HistoryGrows(history, t + 1, u, i);
      assert AllGrown(history[t], history[t + 1]);
    }
  }

  /** An allocation in one shard, in terms of the live blocks alone. */
  method AllocateIn(b: BuddyAllocator, order: nat) returns (local: Option<nat>)
    requires b.Ready()
    modifies b, b.headBits, b.memory
    ensures b.Ready()
    ensures local.None? <==> MustRefuse(old(b.live), b.totalSlots, order)
    ensures local.None? ==> b.live == old(b.live)
    ensures local.Some? ==> FreeRun(old(b.live), b.totalSlots, Block(local.value, order)) && b.live == old(b.live)[local.value := order]
  {
    local := b.Allocate(order);
  }

  /** The shards of a chunk, `2^k` of them. */
  class Shards {
    const shards: seq<BuddyAllocator>
    const slotsPerShard: nat
    ghost const k: nat

    ghost predicate Shape() {
      && |shards| == Pow2(k) && k <= 64
      && (forall i :: 0 <= i < |shards| ==> shards[i].totalSlots == slotsPerShard)
      && (forall i, j :: 0 <= i < j < |shards| ==>
            shards[i] != shards[j] && shards[i].headBits != shards[j].headBits && shards[i].memory != shards[j].memory)
    }

    ghost predicate Ready()
      reads shards, set i | 0 <= i < |shards| :: shards[i].headBits, set i | 0 <= i < |shards| :: shards[i].memory
    {
      Shape() && forall i :: 0 <= i < |shards| ==> shards[i].Ready()
    }

    /** `2^k` fresh shards. */
    constructor (ghost k: nat, count: nat, slotsPerShard: nat, contents: nat -> Cell)
      requires count == Pow2(k) && k <= 64
      ensures Ready() && |shards| == count && this.slotsPerShard == slotsPerShard
      ensures forall i :: 0 <= i < count ==> shards[i].live == map[] && fresh(shards[i])
    {
      var made: seq<BuddyAllocator> := [];
      while |made| < count
        invariant |made| <= count
        invariant forall i :: 0 <= i < |made| ==> (
          && fresh(made[i]) && fresh(made[i].headBits) && fresh(made[i].memory)
          && made[i].Ready() && made[i].totalSlots == slotsPerShard && made[i].live == map[])
        invariant forall i, j :: 0 <= i < j < |made| ==>
          made[i] != made[j] && made[i].headBits != made[j].headBits && made[i].memory != made[j].memory
      {
        var b := new BuddyAllocator(slotsPerShard, contents);
        made := made + [b];
      }
      shards := made;
      this.slotsPerShard, this.k := slotsPerShard, k;
    }

    ghost function Lives(): seq<map<nat, nat>>
      reads shards
    {
      seq(|shards|, i requires 0 <= i < |shards| reads shards => shards[i].live)
    }

    /** Two passes over the shards in probe order: first only those whose lock is free (`tryLock`
        says which attempts succeed), then all of them. If nobody else allocates or frees meanwhile the
        chunk refuses exactly when every shard must, and else the block comes from the first shard that can give it. */
    method AllocGlobal(order: nat, hash: nat, tryLock: nat -> bool) returns (r: Option<nat>)
      requires Ready()
      modifies shards, set i | 0 <= i < |shards| :: shards[i].headBits, set i | 0 <= i < |shards| :: shards[i].memory
      ensures Ready()
      ensures r.None? <==> forall i :: 0 <= i < |shards| ==> MustRefuse(old(Lives())[i], slotsPerShard, order)
      ensures r.None? ==> Lives() == old(Lives())
      ensures |shards| >= 1
      ensures r.Some? ==>
        exists i: nat, local: nat ::
          r.value == CS.FromShardLocal(i, slotsPerShard, local)
          && Placed(old(Lives()), Lives(), slotsPerShard, order, i, local)
          && Serves(old(Lives()), Visits(hash, |shards|), tryLock, slotsPerShard, order, i)
    {
      var got := TryPass(order, hash, tryLock);
      if got.None? {
        got := BlockingPass(order, hash);
      }
      if got.None? {
        return None;
      }
      assert !MustRefuse(old(Lives())[got.value.0], slotsPerShard, order);
      return Some(CS.FromShardLocal(got.value.0, slotsPerShard, got.value.1));
    }

    method TryPass(order: nat, hash: nat, tryLock: nat -> bool) returns (r: Option<(nat, nat)>)
      requires Ready()
      modifies shards, set i | 0 <= i < |shards| :: shards[i].headBits, set i | 0 <= i < |shards| :: shards[i].memory
      ensures Ready() && |shards| >= 1
      ensures r.None? ==> Lives() == old(Lives())
      ensures r.None? ==> PassedOver(old(Lives()), Visits(hash, |shards|), tryLock, |shards|, slotsPerShard, order)
      ensures r.Some? ==> Placed(old(Lives()), Lives(), slotsPerShard, order, r.value.0, r.value.1)
      ensures r.Some? ==> First(old(Lives()), Visits(hash, |shards|), tryLock, slotsPerShard, order, r.value.0)
    {
      ghost var lives := Lives();
      ghost var visits := ProbeOrder(hash);
      for turn := 0 to |shards|
        invariant Ready() && Lives() == lives
        invariant PassedOver(lives, visits, tryLock, turn, slotsPerShard, order)
      {
        var i := ProbeAt(hash, turn, visits);
        var local := TryTurn(i, order, tryLock(turn));
        if local.Some? {
          FirstIs(lives, visits, tryLock, turn, slotsPerShard, order);
          return Some((i, local.value));
        }
        PassedNext(lives, visits, tryLock, turn, slotsPerShard, order);
      }
      r := None;
    }

    /** One turn of that pass: the shard is passed over unless its lock is free. */
    method TryTurn(i: nat, order: nat, free: bool) returns (local: Option<nat>)
      requires Ready() && i < |shards|
      modifies shards, set i | 0 <= i < |shards| :: shards[i].headBits, set i | 0 <= i < |shards| :: shards[i].memory
      ensures Ready()
      ensures local.None? ==> Lives() == old(Lives()) && (free ==> MustRefuse(old(Lives())[i], slotsPerShard, order))
      ensures local.Some? ==> free && Placed(old(Lives()), Lives(), slotsPerShard, order, i, local.value)
    {
      if free {
        local := TryShard(i, order);
      } else {
        local := None;
      }
    }

    method BlockingPass(order: nat, hash: nat) returns (r: Option<(nat, nat)>)
      requires Ready()
      modifies shards, set i | 0 <= i < |shards| :: shards[i].headBits, set i | 0 <= i < |shards| :: shards[i].memory
      ensures Ready()
      ensures r.None? <==> forall i :: 0 <= i < |shards| ==> MustRefuse(old(Lives())[i], slotsPerShard, order)
      ensures r.None? ==> Lives() == old(Lives())
      ensures |shards| >= 1
      ensures r.Some? ==> Placed(old(Lives()), Lives(), slotsPerShard, order, r.value.0, r.value.1)
      ensures r.Some? ==> First(old(Lives()), Visits(hash, |shards|), Always(), slotsPerShard, order, r.value.0)
    {
      ghost var lives := Lives();
      ghost var visits := ProbeOrder(hash);
      for turn := 0 to |shards|
        invariant Ready() && Lives() == lives
        invariant RefusedUpTo(lives, visits, turn, slotsPerShard, order)
      {
        var i := ProbeAt(hash, turn, visits);
        FirstIs(lives, visits, Always(), turn, slotsPerShard, order);
        var local := TryShard(i, order);
        if local.Some? {
          return Some((i, local.value));
        }
        RefusedNext(lives, visits, turn, slotsPerShard, order);
      }
      RefusedAll(lives, visits, slotsPerShard, order);
      r := None;
    }

    /** The shard of a turn. */
    method ProbeAt(hash: nat, turn: nat, ghost order: seq<nat>) returns (i: nat)
      requires Shape() && InOrder(order, hash, |shards|) && turn < |shards|
      ensures i == order[turn] && i < |shards|
    {
      ProbeInRange(hash, k, turn);
      i := ProbeIndex(hash, |shards|, turn);
    }

    /** The order in which the shards are visited; every shard is in it. */
    lemma ProbeOrder(hash: nat) returns (order: seq<nat>)
      requires Shape()
      ensures |shards| >= 1 && order == Visits(hash, |shards|) && InOrder(order, hash, |shards|)
      ensures forall t :: 0 <= t < |order| ==> order[t] < |shards|
      ensures forall i :: 0 <= i < |shards| ==> i in order
    {
      var n := |shards|;
      order := Visits(hash, n);
      forall t | 0 <= t < n
        ensures order[t] < n
      {
        ProbeInRange(hash, k, t);
      }
      forall i | 0 <= i < n
        ensures i in order
      {
        ProbeVisitsEveryShardOnce(hash, k, i);
        var t: nat :| t < n && ProbeIndex(hash, n, t) == i;
        assert order[t] == i;
      }
    }

    method TryShard(i: nat, order: nat) returns (local: Option<nat>)
      requires Ready() && i < |shards|
      modifies shards[i], shards[i].headBits, shards[i].memory
      ensures Ready()
      ensures local.None? <==> MustRefuse(old(Lives())[i], slotsPerShard, order)
      ensures local.None? ==> Lives() == old(Lives())
      ensures local.Some? ==> Placed(old(Lives()), Lives(), slotsPerShard, order, i, local.value)
    {
      local := AllocateIn(shards[i], order);
      assert forall j :: 0 <= j < |shards| && j != i ==> shards[j].Ready();
      assert Lives() == old(Lives())[i := shards[i].live];
    }

    /** Other threads allocate: each pair is a shard and an order. */
    method Disturb(others: seq<(nat, nat)>)
      requires Ready()
      modifies shards, set i | 0 <= i < |shards| :: shards[i].headBits, set i | 0 <= i < |shards| :: shards[i].memory
      ensures Ready() && AllGrown(old(Lives()), Lives())
    {
      for j := 0 to |others|
        invariant Ready() && AllGrown(old(Lives()), Lives())
      {
        var (i, order) := others[j];
        if i < |shards| {
          ghost var before := Lives();
          var local := TryShard(i, order);
          if local.Some? {
            PlacedGrows(before, Lives(), slotsPerShard, order, i, local.value);
            AllGrownTrans(old(Lives()), before, Lives());
          }
        }
      }
    }

    /** One turn of a pass: what others do first, then the shard of the turn. */
    method TurnAmid(i: nat, order: nat, others: seq<(nat, nat)>) returns (local: Option<nat>, ghost before: seq<map<nat, nat>>)
      requires Ready() && i < |shards|
      modifies shards, set i | 0 <= i < |shards| :: shards[i].headBits, set i | 0 <= i < |shards| :: shards[i].memory
      ensures Ready() && AllGrown(old(Lives()), before)
      ensures local.None? ==> Lives() == before && MustRefuse(before[i], slotsPerShard, order)
      ensures local.Some? ==> Placed(before, Lives(), slotsPerShard, order, i, local.value)
    {
      Disturb(others);
      before := Lives();
      local := TryShard(i, order);
    }

    method TryPassAmid(order: nat, hash: nat, tryLock: nat -> bool, others: nat -> seq<(nat, nat)>)
        returns (r: Option<(nat, nat)>, ghost before: seq<map<nat, nat>>)
      requires Ready()
      modifies shards, set i | 0 <= i < |shards| :: shards[i].headBits, set i | 0 <= i < |shards| :: shards[i].memory
      ensures Ready() && AllGrown(old(Lives()), before)
      ensures r.None? ==> Lives() == before
      ensures r.Some? ==> Placed(before, Lives(), slotsPerShard, order, r.value.0, r.value.1)
    {
      ghost var visits := ProbeOrder(hash);
      for turn := 0 to |shards|
        invariant Ready() && AllGrown(old(Lives()), Lives())
      {
        var i := ProbeAt(hash, turn, visits);
        ghost var earlier := Lives();
        if tryLock(turn) {
          var local;
          local, before := TurnAmid(i, order, others(turn));
          AllGrownTrans(old(Lives()), earlier, before);
          if local.Some? {
            return Some((i, local.value)), before;
          }
        } else {
          Disturb(others(turn));
          AllGrownTrans(old(Lives()), earlier, Lives());
        }
      }
      return None, Lives();
    }

    method BlockingPassAmid(order: nat, hash: nat, others: nat -> seq<(nat, nat)>)
        returns (r: Option<(nat, nat)>, ghost before: seq<map<nat, nat>>)
      requires Ready()
      modifies shards, set i | 0 <= i < |shards| :: shards[i].headBits, set i | 0 <= i < |shards| :: shards[i].memory
      ensures Ready() && AllGrown(old(Lives()), before)
      ensures r.None? ==> Lives() == before && AllRefuse(before, slotsPerShard, order)
      ensures r.Some? ==> Placed(before, Lives(), slotsPerShard, order, r.value.0, r.value.1)
    {
      ghost var visits := ProbeOrder(hash);
      for turn := 0 to |shards|
        invariant Ready() && AllGrown(old(Lives()), Lives())
        invariant RefusedUpTo(Lives(), visits, turn, slotsPerShard, order)
      {
        var i := ProbeAt(hash, turn, visits);
        ghost var earlier := Lives();
        var local;
        local, before := TurnAmid(i, order, others(turn));
        AllGrownTrans(old(Lives()), earlier, before);
        if local.Some? {
          return Some((i, local.value)), before;
        }
        RefusedUpToGrows(earlier, before, visits, turn, slotsPerShard, order);
        RefusedNext(before, visits, turn, slotsPerShard, order);
      }
      RefusedAll(Lives(), visits, slotsPerShard, order);
      return None, Lives();
    }

    /** The same search while other threads allocate before every turn, and none frees: it refuses only when
        every shard must by then, and always when every shard must from the start. A block returned was
        free just before. */
    method AllocGlobalAmid(order: nat, hash: nat, tryLock: nat -> bool, others: nat -> seq<(nat, nat)>)
        returns (r: Option<nat>, ghost before: seq<map<nat, nat>>)
      requires Ready()
      modifies shards, set i | 0 <= i < |shards| :: shards[i].headBits, set i | 0 <= i < |shards| :: shards[i].memory
      ensures Ready() && AllGrown(old(Lives()), before)
      ensures r.None? ==> Lives() == before && AllRefuse(before, slotsPerShard, order)
      ensures AllRefuse(old(Lives()), slotsPerShard, order) ==> r.None?
      ensures r.Some? ==>
        exists i: nat, local: nat ::
          r.value == CS.FromShardLocal(i, slotsPerShard, local) && Placed(before, Lives(), slotsPerShard, order, i, local)
    {
      var got;
      got, before := TryPassAmid(order, hash, tryLock, others);
      if got.None? {
        ghost var earlier := before;
        got, before := BlockingPassAmid(order, hash, (turn: nat) => others(turn + |shards|));
        AllGrownTrans(old(Lives()), earlier, before);
      }
      if got.None? {
        return None, before;
      }
      var (i, local) := got.value;
      GivenUnlessRefused(old(Lives()), before, i, local, slotsPerShard, order);
      r := Some(CS.FromShardLocal(i, slotsPerShard, local));
    }
  }

  lemma GivenUnlessRefused(lives: seq<map<nat, nat>>, before: seq<map<nat, nat>>, i: nat, local: nat, total: nat, order: nat)
    requires AllGrown(lives, before) && i < |before| && order <= MAX_ORDER && FreeRun(before[i], total, Block(local, order))
    ensures !AllRefuse(lives, total, order)
  {
    if MustRefuse(lives[i], total, order) {
      RefusalGrows(lives[i], before[i], total, order);
    }
  }
}
