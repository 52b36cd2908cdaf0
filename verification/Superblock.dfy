/** A superblock of 64 slots: its free mask and active flag as updated by one call at a time,
    and the retirement race of `free_one` and `set_inactive` one memory access at a time. */
module Superblock {
  import opened Prelude

  const SUPERBLOCK_SIZE: nat := 64

  /** The mask with all 64 bits set. */
  const FULL: set<nat> := set i: nat | i < 64

  /** The lowest one bit of a mask. */
  predicate LowestBit(mask: set<nat>, i: nat) {
    i in mask && forall j :: j in mask ==> i <= j
  }

  lemma {:induction false} HasLowestBit(mask: set<nat>)
    requires mask != {}
    ensures exists i :: LowestBit(mask, i)
    decreases |mask|
  {
    var x :| x in mask;
    if mask == {x} {
      assert LowestBit(mask, x);
    } else {
      var rest := mask - {x};
      assert rest != {} by { assert rest == {} ==> mask == {x}; }
      HasLowestBit(rest);
      var i :| LowestBit(rest, i);
      var low := if i <= x then i else x;
      forall j | j in mask
        ensures low <= j
      {
        assert j == x || j in rest;
      }
      assert LowestBit(mask, low);
    }
  }

  // ---------------------------------------------------------------------------------------
  // Each call as one step
  // ---------------------------------------------------------------------------------------

  /** The two words of a superblock. */
  datatype SbState = SbState(mask: set<nat>, active: bool)

  /** All slots free, with an owner. */
  const OPENED: SbState := SbState(FULL, true)

  function TakeSlot(st: SbState, j: nat): SbState {
    st.(mask := st.mask - {j})
  }

  /** `free_one`, with its answer. */
  function FreeSlot(st: SbState, j: nat): (SbState, bool) {
    var mask := st.mask + {j};
    (st.(mask := mask), mask == FULL && !st.active)
  }

  /** `set_inactive`, with its answer. */
  function LetGo(st: SbState): (SbState, bool) {
    (st.(active := false), st.mask == FULL)
  }

  /** The slots handed out. */
  function InUse(st: SbState): set<nat> {
    FULL - st.mask
  }

  class SuperblockState {
    var freeMask: set<nat>
    var isActive: bool

    ghost function View(): SbState
      reads this
    {
      SbState(freeMask, isActive)
    }

    /** The mask has 64 bits. */
    ghost predicate Valid()
      reads this
    {
      freeMask <= FULL
    }

    constructor ()
      ensures Valid() && InUse(View()) == FULL && !isActive
    {
      freeMask, isActive := {}, false;
    }

    /** Whatever the last epoch left behind, nothing is in use in the new one. */
    method Init()
      modifies this
      ensures Valid() && View() == OPENED && InUse(View()) == {}
    {
      freeMask, isActive := FULL, true;
    }

    /** Hands out a slot nobody uses, the lowest; refuses exactly when all 64 are in use. */
    method AllocOne() returns (r: Option<nat>)
      requires Valid()
      modifies this`freeMask
      ensures Valid() && (r.None? <==> old(InUse(View())) == FULL)
      ensures r.None? ==> View() == old(View())
      ensures r.Some? ==> LowestBit(old(freeMask), r.value) && View() == TakeSlot(old(View()), r.value)
      ensures r.Some? ==> r.value !in old(InUse(View())) && InUse(View()) == old(InUse(View())) + {r.value}
    {
      if freeMask == {} {
        return None;
      }
      HasLowestBit(freeMask);
      var i :| LowestBit(freeMask, i);
      assert i in FULL;
      freeMask := freeMask - {i};
      r := Some(i);
    }

    /** Opening a superblock and taking its first slot, which a fresh one always has. */
    method OpenAndTake() returns (offset: nat)
      modifies this
      ensures Valid() && isActive && offset == 0 && InUse(View()) == {offset}
      ensures View() == TakeSlot(OPENED, offset)
    {
      Init();
      var r := AllocOne();
      assert 0 in FULL;
      offset := r.value;
    }

    /** Gives a slot back. The caller is told to return the superblock exactly if no slot is in use any
        more and the owner is gone. */
    method FreeOne(slot: nat) returns (give: bool)
      requires Valid() && slot < 64
      modifies this`freeMask
      ensures Valid() && (View(), give) == FreeSlot(old(View()), slot)
      ensures InUse(View()) == old(InUse(View())) - {slot}
      ensures give <==> InUse(View()) == {} && !isActive
    {
      assert slot in FULL;
      freeMask := freeMask + {slot};
      give := freeMask == FULL && !isActive;
      NothingInUse(View());
    }

    /** The owner lets go. It is told to return the superblock exactly if no slot is in use. */
    method SetInactive() returns (give: bool)
      requires Valid()
      modifies this`isActive
      ensures Valid() && (View(), give) == LetGo(old(View()))
      ensures !isActive && InUse(View()) == old(InUse(View())) && (give <==> InUse(View()) == {})
    {
      isActive := false;
      give := freeMask == FULL;
      NothingInUse(View());
    }
  }

  lemma NothingInUse(st: SbState)
    requires st.mask <= FULL
    ensures InUse(st) == {} <==> st.mask == FULL
  {
    if InUse(st) == {} {
      assert forall j :: j in FULL ==> j in InUse(st) || j in st.mask;
    }
  }

  // ---------------------------------------------------------------------------------------
  // Single-access granularity
  // ---------------------------------------------------------------------------------------

  type Tid = nat

  /** Where the owning thread is: still allocating, between the two accesses of `set_inactive`,
      or past it with the value it returned. */
  datatype Owner = Holding | Retiring | Retired(returned: bool)

  /** One epoch of a superblock. `checking` are the threads inside `free_one` that filled the mask
      and have yet to load the active flag; `trues` counts the calls that answered "return it".
      The last three fields only record the schedule. */
  datatype Epoch = Epoch(
    mask: set<nat>,
    active: bool,
    checking: set<Tid>,
    owner: Owner,
    trues: nat,
    fullAtStore: bool,
    pendingAtStore: nat,
    filledWhileRetiring: bool
  )

  datatype Access =
    | OwnerAlloc(slot: nat)
    | FetchOr(tid: Tid, slot: nat)
    | LoadActive(tid: Tid)
    | StoreInactive
    | LoadMask

  ghost function Begin(): Epoch {
    Epoch(FULL, true, {}, Holding, 0, false, 0, false)
  }

  ghost predicate Enabled(e: Epoch, a: Access) {
    match a
    case OwnerAlloc(slot) => e.owner.Holding? && LowestBit(e.mask, slot)
    case FetchOr(tid, slot) => tid !in e.checking && slot < 64 && slot !in e.mask
    case LoadActive(tid) => tid in e.checking
    case StoreInactive => e.owner.Holding?
    case LoadMask => e.owner.Retiring?
  }

  ghost function Do(e: Epoch, a: Access): Epoch
    requires Enabled(e, a)
  {
    match a
    case OwnerAlloc(slot) => e.(mask := e.mask - {slot})
    case FetchOr(tid, slot) =>
      var mask := e.mask + {slot};
      if mask == FULL then
        e.(mask := mask, checking := e.checking + {tid},
           filledWhileRetiring := e.filledWhileRetiring || e.owner.Retiring?)
      else e.(mask := mask)
    case LoadActive(tid) =>
      e.(checking := e.checking - {tid}, trues := if e.active then e.trues else e.trues + 1)
    case StoreInactive =>
      e.(active := false, owner := Retiring, fullAtStore := e.mask == FULL, pendingAtStore := |e.checking|)
    case LoadMask =>
      e.(owner := Retired(e.mask == FULL), trues := if e.mask == FULL then e.trues + 1 else e.trues)
  }

  ghost predicate Schedule(e: Epoch, accesses: seq<Access>, e': Epoch)
    decreases |accesses|
  {
    if accesses == [] then e == e'
    else Enabled(e, accesses[0]) && Schedule(Do(e, accesses[0]), accesses[1..], e')
  }

  function One(b: bool): nat {
    if b then 1 else 0
  }

  /** Accounts for every "return it" answer, given or still to come. */
  ghost predicate EpochInv(e: Epoch) {
    && e.mask <= FULL
    && match e.owner
       case Holding => e.active && e.trues == 0 && !e.filledWhileRetiring
       case Retiring =>
         && !e.active
         && e.trues + |e.checking| == e.pendingAtStore + One(e.mask == FULL && !e.fullAtStore)
         && (e.filledWhileRetiring <==> e.mask == FULL && !e.fullAtStore)
         && (e.fullAtStore ==> e.mask == FULL)
       case Retired(r) =>
         && !e.active
         && e.trues + |e.checking| == e.pendingAtStore + One(e.mask == FULL && !e.fullAtStore) + One(r)
         && (r ==> e.mask == FULL)
         && (e.fullAtStore ==> r)
         && (e.filledWhileRetiring <==> r && !e.fullAtStore)
  }

  lemma AccessKeeps(e: Epoch, a: Access)
    requires EpochInv(e) && Enabled(e, a)
    ensures EpochInv(Do(e, a))
  {
    match a
    case OwnerAlloc(slot) =>
    case FetchOr(tid, slot) =>
      assert slot in FULL;
    case LoadActive(tid) =>
    case StoreInactive =>
    case LoadMask =>
  }

  lemma {:induction false} ScheduleKeeps(e: Epoch, accesses: seq<Access>, e': Epoch)
    requires EpochInv(e) && Schedule(e, accesses, e')
    ensures EpochInv(e')
    decreases |accesses|
  {
    if accesses != [] {
      AccessKeeps(e, accesses[0]);
      ScheduleKeeps(Do(e, accesses[0]), accesses[1..], e');
    }
  }

  /** The owner has retired, every slot is free again and no call is unfinished. */
  ghost predicate Over(e: Epoch) {
    e.owner.Retired? && e.mask == FULL && e.checking == {}
  }

  /** In every interleaving of single accesses, the number of calls that hand the superblock back
      is one, plus one for each `free_one` caught between its accesses by the retiring store, plus
      one if the mask is filled between the two accesses of `set_inactive`. */
  lemma ReturnsAreCounted(accesses: seq<Access>, e: Epoch)
    requires Schedule(Begin(), accesses, e) && Over(e)
    ensures e.trues == 1 + e.pendingAtStore + One(e.filledWhileRetiring)
  {
    ScheduleKeeps(Begin(), accesses, e);
  }

  /** A superblock is never leaked, at single-access granularity. */
  lemma NeverLeaked(accesses: seq<Access>, e: Epoch)
    requires Schedule(Begin(), accesses, e) && Over(e)
    ensures e.trues >= 1
  {
    ReturnsAreCounted(accesses, e);
  }

  /** It is handed back exactly once just when the retiring store splits no `free_one` and no
      filling store splits `set_inactive`, as when both calls are single steps. */
  lemma ReturnedOnceIff(accesses: seq<Access>, e: Epoch)
    requires Schedule(Begin(), accesses, e) && Over(e)
    ensures e.trues == 1 <==> e.pendingAtStore == 0 && !e.filledWhileRetiring
  {
    ReturnsAreCounted(accesses, e);
  }

  /** One slot taken and freed; the owner retires between the two accesses of that `free_one`, and
      both calls answer "return it". */
  lemma TwoReturnsHappen()
    ensures exists accesses, e :: Schedule(Begin(), accesses, e) && Over(e) && e.trues == 2
  {
    var e1 := Do(Begin(), OwnerAlloc(0));
    var e2 := Do(e1, FetchOr(7, 0));
    assert e1.mask + {0} == FULL;
    var e3 := Do(e2, StoreInactive);
    var e4 := Do(e3, LoadMask);
    var e5 := Do(e4, LoadActive(7));
    ScheduleNil(e5);
    ScheduleCons(e4, LoadActive(7), [], e5);
    ScheduleCons(e3, LoadMask, [LoadActive(7)], e5);
    ScheduleCons(e2, StoreInactive, [LoadMask, LoadActive(7)], e5);
    ScheduleCons(e1, FetchOr(7, 0), [StoreInactive, LoadMask, LoadActive(7)], e5);
    ScheduleCons(Begin(), OwnerAlloc(0), [FetchOr(7, 0), StoreInactive, LoadMask, LoadActive(7)], e5);
    assert e5.checking == {};
  }

  /** Worse: after the mask was filled the owner takes another slot and retires, and the delayed
      load answers "return it" while that slot is in use. */
  lemma ReturnWhileInUseHappens()
    ensures exists accesses, e :: Schedule(Begin(), accesses, e) && e.trues == 1 && e.mask != FULL
  {
    var e1 := Do(Begin(), OwnerAlloc(0));
    var e2 := Do(e1, FetchOr(7, 0));
    assert e1.mask + {0} == FULL;
    var e3 := Do(e2, OwnerAlloc(0));
    var e4 := Do(e3, StoreInactive);
    var e5 := Do(e4, LoadActive(7));
    ScheduleNil(e5);
    ScheduleCons(e4, LoadActive(7), [], e5);
    ScheduleCons(e3, StoreInactive, [LoadActive(7)], e5);
    ScheduleCons(e2, OwnerAlloc(0), [StoreInactive, LoadActive(7)], e5);
    ScheduleCons(e1, FetchOr(7, 0), [OwnerAlloc(0), StoreInactive, LoadActive(7)], e5);
    ScheduleCons(Begin(), OwnerAlloc(0), [FetchOr(7, 0), OwnerAlloc(0), StoreInactive, LoadActive(7)], e5);
    assert 0 !in e5.mask && 0 in FULL;
  }

  /** The access tells a thread to return the superblock although a slot is in use. */
  ghost predicate Wrong(e: Epoch, a: Access) {
    Enabled(e, a) && Do(e, a).trues > e.trues && e.mask != FULL
  }

  /** No schedule from here contains such an access. */
  ghost predicate NeverWrong(e: Epoch) {
    forall accesses, e', a :: Schedule(e, accesses, e') ==> !Wrong(e', a)
  }

  /** The owner has let go, and no `free_one` is between its accesses unless every slot is free. */
  ghost predicate Settled(e: Epoch) {
    !e.owner.Holding? && (e.checking == {} || e.mask == FULL)
  }

  lemma {:induction false} SettledStays(e: Epoch, accesses: seq<Access>, e': Epoch)
    requires EpochInv(e) && Settled(e) && Schedule(e, accesses, e')
    ensures Settled(e') && EpochInv(e')
    decreases |accesses|
  {
    if accesses != [] {
      AccessKeeps(e, accesses[0]);
      assert forall j: nat :: j < 64 ==> j in FULL;
      SettledStays(Do(e, accesses[0]), accesses[1..], e');
    }
  }

  /** Within one epoch: before the owner lets go nobody is told to return the superblock. After that, somebody
      may be told so while a slot is in use if and only if, at that moment, a `free_one` that filled the
      mask has not read the flag yet and the mask is no longer full. */
  lemma ReturnWhileInUseIff(accesses: seq<Access>, e: Epoch)
    requires Schedule(Begin(), accesses, e) && e.owner.Holding?
    ensures forall a :: !Wrong(e, a)
    ensures NeverWrong(Do(e, StoreInactive)) <==> e.checking == {} || e.mask == FULL
  {
    ScheduleKeeps(Begin(), accesses, e);
    var e1 := Do(e, StoreInactive);
    AccessKeeps(e, StoreInactive);
    if e.checking == {} || e.mask == FULL {
      forall more, e', a | Schedule(e1, more, e')
        ensures !Wrong(e', a)
      {
        SettledStays(e1, more, e');
      }
    } else {
      var t :| t in e.checking;
      ScheduleNil(e1);
      assert Wrong(e1, LoadActive(t));
    }
  }

  lemma ScheduleNil(e: Epoch)
    ensures Schedule(e, [], e)
  {
  }

  lemma ScheduleCons(e: Epoch, a: Access, rest: seq<Access>, e': Epoch)
    requires Enabled(e, a) && Schedule(Do(e, a), rest, e')
    ensures Schedule(e, [a] + rest, e')
  {
    assert ([a] + rest)[1..] == rest;
  }
}
