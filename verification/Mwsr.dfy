/** The multi-waker, single-registrar waker cell as a transition system. One registrar and any number
    of takers interleave; every atomic access to the cell is a step of its own. */
module Mwsr {
  import opened Prelude

  /** A waker is its vtable and data pointers; a clone has the same two. */
  datatype Waker = Waker(vt: nat, data: nat)

  const NOOP: nat := 0
  const NULL: nat := 0

  datatype Tag = Zero | Registered | Waking | Registering

  /** The tagged vtable pointer. */
  datatype Word = Word(vt: nat, tag: Tag)

  const EMPTY: Word := Word(NOOP, Zero)

  type Tid = nat

  /** Where the registrar is; the waker of the call is the last element of `wakers`. */
  datatype RegPc =
    | Idle
    | Called
    | Load
    | Look(seen: Word)
    | NoopData
    | NoopVt(id: nat)
    | Won(vt: nat, prior: nat)
    | DropOld(vt: nat, d: nat, prior: nat)
    | Replace(vt: nat)
    | Publish(vt: nat, id: nat)
    | FailVt(id: nat)
    | FailData(id: nat)
    | FailWake(id: nat)
    | Cache

  /** Where a taker is. `aim` is the number of register calls that had returned when the take began. */
  datatype TakePc =
    | Begin(aim: nat)
    | Peek(aim: nat, seen: Word)
    | Got(aim: nat, vt: nat, id: nat)
    | Loaded(aim: nat, vt: nat, d: nat, id: nat)
    | Cleared(aim: nat, vt: nat, d: nat, id: nat)
    | Holding(aim: nat, waker: Waker, id: nat)
    | Done(aim: nat)

  /** Where a clone is; auxiliary. */
  datatype Place = InCell | RegOld | RegNew | Taken(t: Tid) | Gone(fate: Fate)

  datatype Fate = Dropped | Woken | Returned

  datatype Event = Event(id: nat, waker: Waker, fate: Fate)

  /** How a register call was answered; auxiliary. */
  datatype Service = ByTaker(id: nat) | ByRegistrar

  /** The cell and its threads; the fields from `wakers` on are auxiliary history. */
  datatype State = State(
    word: Word, data: nat, cache: Option<Waker>, reg: RegPc, takers: map<Tid, TakePc>,
    wakers: seq<Waker>, clones: seq<Waker>, place: seq<Place>, cell: Option<nat>, cellCall: nat, busy: Option<Tid>,
    log: seq<Event>, service: map<nat, Service>, served: nat, woken: set<nat>)

  function Initial(): State {
    State(EMPTY, NULL, None, Idle, map[], [], [], [], None, 0, None, [], map[], 0, {})
  }

  // ---------------------------------------------------------------------------------------
  // Steps
  // ---------------------------------------------------------------------------------------

  datatype Step = Register(w: Waker) | Reg | Start(t: Tid) | Take(t: Tid) | Finish(t: Tid, fate: Fate)

  /** Only this crate has the no-op vtable, so no caller passes it. */
  predicate Enabled(s: State, step: Step) {
    match step
    case Register(w) => s.reg.Idle? && w.vt != NOOP
    case Reg => !s.reg.Idle?
    case Start(t) => t !in s.takers || s.takers[t].Done?
    case Take(t) => t in s.takers && !s.takers[t].Done? && !s.takers[t].Holding?
    case Finish(t, fate) => t in s.takers && s.takers[t].Holding? && fate != Dropped
  }

  /** The waker of the register call in progress. */
  function Current(s: State): Waker {
    if s.wakers == [] then Waker(NOOP, NULL) else s.wakers[|s.wakers| - 1]
  }

  function Record(s: State, id: nat, w: Waker, fate: Fate): State {
    s.(log := s.log + [Event(id, w, fate)], place := if id < |s.place| then s.place[id := Gone(fate)] else s.place)
  }

  function Serve(s: State, call: nat, how: Service): State {
    s.(service := s.service[call := how], served := if s.served < call then call else s.served)
  }

  function Move(s: State, id: nat, place: Place): State {
    s.(place := if id < |s.place| then s.place[id := place] else s.place)
  }

  function Clone(s: State): State {
    s.(clones := s.clones + [Current(s)], place := s.place + [RegNew])
  }

  /** The clone in the cell (no clone at all if the cell is empty). */
  function CellId(s: State): nat {
    if s.cell.Some? then s.cell.value else |s.clones|
  }

  function TakeOut(s: State, place: Place): State {
    Move(s, CellId(s), place).(cell := None)
  }

  function Install(s: State, id: nat): State {
    Move(s, id, InCell).(cell := Some(id), cellCall := |s.wakers|, reg := Cache)
  }

  /** The next access of the registrar. */
  function RegStep(s: State): State {
    var w := Current(s);
    match s.reg
    case Idle => s
    case Called =>
      if s.cache == Some(w) && s.word == Word(w.vt, Registered) then s.(reg := Idle, cellCall := |s.wakers|)
      else s.(reg := Load)
    case Load => s.(reg := Look(s.word))
    case Look(v) =>
      if v.tag == Waking then Serve(s, |s.wakers|, ByRegistrar).(woken := s.woken + {|s.wakers|}, reg := Idle)
      else if v.tag == Registering then s.(reg := Load)
      else if v.tag == Zero then s.(reg := if v == EMPTY then NoopData else Load)
      else if s.word != v then s.(reg := Look(s.word))
      else TakeOut(s, RegOld).(word := Word(v.vt, Registering), reg := Won(v.vt, CellId(s)))
    case NoopData => Clone(s).(data := w.data, reg := NoopVt(|s.clones|))
    case NoopVt(id) => Install(s, id).(word := Word(w.vt, Registered))
    case Won(vt, prior) => s.(reg := DropOld(vt, s.data, prior))
    case DropOld(vt, d, prior) => (if vt != NOOP then Record(s, prior, Waker(vt, d), Dropped) else s).(reg := Replace(vt))
    case Replace(vt) => Clone(s).(data := w.data, reg := Publish(vt, |s.clones|))
    case Publish(vt, id) =>
      if s.word == Word(vt, Registering) then Install(s, id).(word := Word(w.vt, Registered))
      else s.(reg := FailVt(id))
    case FailVt(id) => s.(word := EMPTY, reg := FailData(id))
    case FailData(id) => s.(data := NULL, reg := FailWake(id))
    case FailWake(id) => Record(s, id, w, Woken).(cache := None, woken := s.woken + {|s.wakers|}, reg := Idle)
    case Cache => s.(cache := Some(w), reg := Idle)
  }

  /** The number of register calls that have returned. */
  function ReturnedCalls(s: State): nat {
    if s.reg.Idle? || s.wakers == [] then |s.wakers| else |s.wakers| - 1
  }

  function SetTaker(s: State, t: Tid, pc: TakePc): State {
    s.(takers := s.takers[t := pc])
  }

  /** The next access of a taker. */
  function TakeStep(s: State, t: Tid): State
    requires t in s.takers
  {
    match s.takers[t]
    case Begin(aim) => SetTaker(s, t, Peek(aim, s.word))
    case Peek(aim, v) =>
      if v.tag == Registering then
        if s.word == v then
          SetTaker(Serve(s, |s.wakers|, ByRegistrar), t, Done(aim)).(word := Word(v.vt, Waking))
        else SetTaker(s, t, Peek(aim, s.word))
      else if v.tag == Registered then
        if s.word == v then
          SetTaker(Serve(TakeOut(s, Taken(t)), s.cellCall, ByTaker(CellId(s))), t, Got(aim, v.vt, CellId(s)))
            .(word := Word(v.vt, Waking), busy := Some(t))
        else SetTaker(s, t, Peek(aim, s.word))
      else SetTaker(s, t, Done(aim))
    case Got(aim, vt, id) => SetTaker(s, t, Loaded(aim, vt, s.data, id))
    case Loaded(aim, vt, d, id) => SetTaker(s, t, Cleared(aim, vt, d, id)).(data := NULL)
    case Cleared(aim, vt, d, id) => SetTaker(s, t, Holding(aim, Waker(vt, d), id)).(word := EMPTY, busy := None)
    case Holding(_, _, _) => s
    case Done(_) => s
  }

  function Do(s: State, step: Step): State
    requires Enabled(s, step)
  {
    match step
    case Register(w) => s.(wakers := s.wakers + [w], reg := Called)
    case Reg => RegStep(s)
    case Start(t) => SetTaker(s, t, Begin(ReturnedCalls(s)))
    case Take(t) => TakeStep(s, t)
    case Finish(t, fate) =>
      var pc := s.takers[t];
      SetTaker(Record(s, pc.id, pc.waker, fate), t, Done(pc.aim))
  }

  // ---------------------------------------------------------------------------------------
  // Invariant
  // ---------------------------------------------------------------------------------------

  /** The registrar has locked the cell to replace the waker in it; a taker may have marked it since. */
  predicate Replacing(s: State, vt: nat) {
    && s.word.vt == vt && vt != NOOP && (s.word.tag == Registering || MarkedWaking(s))
    && s.busy.None? && s.cell.None?
  }

  /** A taker found the cell locked and left the wake to the registrar. */
  predicate MarkedWaking(s: State) {
    s.word.tag == Waking && s.served == |s.wakers|
  }

  predicate IsNew(s: State, id: nat) {
    id < |s.clones| && s.clones[id] == Current(s)
  }

  predicate RegOk(s: State) {
    match s.reg
    case Idle => true
    case Called => true
    case Load => true
    case Look(v) => v.tag != Registering && (v.tag == Zero ==> v == EMPTY && s.word == EMPTY)
    case NoopData => s.word == EMPTY
    case NoopVt(id) => s.word == EMPTY && IsNew(s, id) && s.data == Current(s).data
    case Won(vt, prior) => Replacing(s, vt) && prior < |s.clones| && s.clones[prior] == Waker(vt, s.data)
    case DropOld(vt, d, prior) => Replacing(s, vt) && prior < |s.clones| && s.clones[prior] == Waker(vt, d)
    case Replace(vt) => Replacing(s, vt)
    case Publish(vt, id) => Replacing(s, vt) && IsNew(s, id) && s.data == Current(s).data
    case FailVt(id) => MarkedWaking(s) && s.busy.None? && s.cell.None? && IsNew(s, id)
    case FailData(id) => s.word == EMPTY && s.served == |s.wakers| && IsNew(s, id)
    case FailWake(id) => s.word == EMPTY && s.served == |s.wakers| && IsNew(s, id)
    case Cache => if s.cell.Some? then s.cellCall == |s.wakers| else s.served == |s.wakers|
  }

  /** The registrar is between locking the cell and publishing or giving up. */
  predicate Locked(s: State) {
    s.reg.Won? || s.reg.DropOld? || s.reg.Replace? || s.reg.Publish? || s.reg.FailVt?
  }

  /** The registrar has neither locked nor filled the cell yet. */
  predicate Early(pc: RegPc) {
    pc.Called? || pc.Load? || pc.Look? || pc.NoopData? || pc.NoopVt?
  }

  predicate CellOk(s: State) {
    && |s.place| == |s.clones|
    && (forall id :: 0 <= id < |s.clones| ==> s.clones[id].vt != NOOP)
    && (forall m :: 0 <= m < |s.wakers| ==> s.wakers[m].vt != NOOP)
    && (!s.reg.Idle? ==> s.wakers != [])
    && (s.word.tag == Zero ==> s.word == EMPTY)
    && (s.word.tag == Registered <==> s.cell.Some?)
    && (s.word.tag == Registering ==> Locked(s) && s.served < |s.wakers|)
    && (Early(s.reg) ==> s.served < |s.wakers|)
    && (s.busy.Some? ==> s.busy.value in s.takers)
    && (s.word.tag == Waking ==> s.busy.Some? || Locked(s))
    && (s.busy.Some? ==> s.word.tag == Waking && !Locked(s))
    && (s.cell.Some? ==> CellHolds(s, s.cell.value))
    && (s.word == EMPTY && !s.reg.NoopVt? && !s.reg.FailData? ==> s.data == NULL)
  }

  predicate CellHolds(s: State, id: nat) {
    && id < |s.clones| && Waker(s.word.vt, s.data) == s.clones[id]
    && 1 <= s.cellCall <= (if s.reg.Cache? then |s.wakers| else ReturnedCalls(s)) && s.wakers[s.cellCall - 1] == s.clones[id]
    && (!s.reg.Cache? ==> s.cache == Some(s.clones[id]))
  }

  function OldId(pc: RegPc): Option<nat> {
    if pc.Won? || pc.DropOld? then Some(pc.prior) else None
  }

  function NewId(pc: RegPc): Option<nat> {
    if pc.NoopVt? || pc.Publish? || pc.FailVt? || pc.FailData? || pc.FailWake? then Some(pc.id) else None
  }

  function HeldId(pc: TakePc): Option<nat> {
    if pc.Got? || pc.Loaded? || pc.Cleared? || pc.Holding? then Some(pc.id) else None
  }

  predicate Inside(pc: TakePc) {
    pc.Got? || pc.Loaded? || pc.Cleared?
  }

  ghost predicate TakerOk(s: State, t: Tid)
    requires t in s.takers
  {
    var pc := s.takers[t];
    && pc.aim <= ReturnedCalls(s)
    && (Inside(pc) <==> s.busy == Some(t))
    && (HeldId(pc).Some? ==> pc.id < |s.clones| && pc.aim <= s.served)
    && (pc.Peek? && (pc.seen.tag == Zero || pc.seen.tag == Waking) ==> pc.aim <= s.served)
    && (pc.Got? ==> s.clones[pc.id] == Waker(pc.vt, s.data))
    && (pc.Loaded? || pc.Cleared? ==> s.clones[pc.id] == Waker(pc.vt, pc.d))
    && (pc.Cleared? ==> s.data == NULL)
    && (pc.Holding? ==> s.clones[pc.id] == pc.waker)
    && (pc.Done? ==> pc.aim <= s.served)
  }

  ghost predicate Logged(s: State, id: nat) {
    exists i :: 0 <= i < |s.log| && s.log[i].id == id
  }

  /** Where a clone is said to be, it is. */
  ghost predicate PlaceOk(s: State, id: nat)
    requires id < |s.place|
  {
    match s.place[id]
    case InCell => s.cell == Some(id)
    case RegOld => OldId(s.reg) == Some(id)
    case RegNew => NewId(s.reg) == Some(id)
    case Taken(t) => t in s.takers && HeldId(s.takers[t]) == Some(id)
    case Gone(_) => Logged(s, id)
  }

  /** Whoever holds a clone is where the clone is said to be. */
  predicate HoldersOk(s: State) {
    && (s.cell.Some? ==> s.cell.value < |s.place| && s.place[s.cell.value] == InCell)
    && (OldId(s.reg).Some? ==> OldId(s.reg).value < |s.place| && s.place[OldId(s.reg).value] == RegOld)
    && (NewId(s.reg).Some? ==> NewId(s.reg).value < |s.place| && s.place[NewId(s.reg).value] == RegNew)
  }

  predicate EventOk(s: State, e: Event) {
    e.id < |s.clones| && e.id < |s.place| && e.waker == s.clones[e.id] && s.place[e.id] == Gone(e.fate)
  }

  /** Each clone is consumed at most once, as the waker it was cloned from. */
  ghost predicate LogOk(s: State) {
    && (forall i :: 0 <= i < |s.log| ==> EventOk(s, s.log[i]))
    && (forall i, j :: 0 <= i < j < |s.log| ==> s.log[i].id != s.log[j].id)
  }

  /** The registrar has yet to find out, or act on, that a taker left the wake to it. */
  predicate Owing(s: State) {
    Locked(s) || s.reg.FailData? || s.reg.FailWake?
  }

  /** Register call `m` was answered: its waker was taken from the cell and has since been woken or
      handed out, or is in the hands of the taker; or the registrar woke it or is about to. */
  predicate Answered(s: State, m: nat, how: Service) {
    && 1 <= m <= |s.wakers|
    && match how
       case ByTaker(id) =>
         && id < |s.clones| && id < |s.place| && s.clones[id] == s.wakers[m - 1]
         && (s.place[id].Taken? || s.place[id] == Gone(Woken) || s.place[id] == Gone(Returned))
       case ByRegistrar =>
         m in s.woken || (m == |s.wakers| && s.served == m && Owing(s))
  }

  /** Every call that has returned was answered, or a later one was, or the cell still holds its
      waker or a later one; while the cell is locked a later call is under way. */
  predicate Covered(s: State) {
    || ReturnedCalls(s) <= s.served
    || (s.cell.Some? && ReturnedCalls(s) <= s.cellCall)
    || s.word.tag == Registering
  }

  ghost predicate ServiceOk(s: State) {
    && (s.served > 0 ==> s.served in s.service)
    && (forall m :: m in s.service ==> Answered(s, m, s.service[m]))
  }

  /** The word and the accesses in progress. */
  ghost predicate Mechanism(s: State) {
    && CellOk(s) && RegOk(s) && HoldersOk(s) && Covered(s) && s.served <= |s.wakers|
    && (forall t :: t in s.takers ==> TakerOk(s, t))
  }

  /** The mechanism and the calls answered. */
  ghost predicate Protocol(s: State) {
    Mechanism(s) && ServiceOk(s)
  }

  predicate HeldOk(s: State, t: Tid)
    requires t in s.takers
  {
    var held := HeldId(s.takers[t]);
    held.Some? ==> held.value < |s.place| && s.place[held.value] == Taken(t)
  }

  /** Each clone is in exactly one place, and is consumed at most once. */
  ghost predicate Owned(s: State) {
    && |s.place| == |s.clones| && HoldersOk(s) && LogOk(s)
    && (forall t :: t in s.takers ==> HeldOk(s, t))
    && (forall id {:trigger PlaceOk(s, id)} :: 0 <= id < |s.place| ==> PlaceOk(s, id))
  }

  ghost predicate Inv(s: State) {
    Protocol(s) && Owned(s)
  }

  lemma InitialInv()
    ensures Inv(Initial())
  {
  }

  lemma StillLogged(s: State, s': State, id: nat)
    requires Logged(s, id) && s.log <= s'.log
    ensures Logged(s', id)
  {
    var i :| 0 <= i < |s.log| && s.log[i].id == id;
    assert s'.log[i].id == id;
  }

  ghost predicate SameOwners(s: State, s': State) {
    && s'.place == s.place && s'.clones == s.clones && s'.log == s.log && s'.cell == s.cell
    && OldId(s'.reg) == OldId(s.reg) && NewId(s'.reg) == NewId(s.reg)
    && (forall t :: t in s.takers ==> t in s'.takers)
    && (forall t :: t in s'.takers ==> HeldId(s'.takers[t]) == if t in s.takers then HeldId(s.takers[t]) else None)
  }

  /** Steps that move no clone. */
  lemma OwnedFrame(s: State, s': State)
    requires Owned(s) && SameOwners(s, s')
    ensures Owned(s')
  {
    forall t | t in s'.takers
      ensures HeldOk(s', t)
    {
      assert t in s.takers ==> HeldOk(s, t);
    }
    forall id | 0 <= id < |s'.place|
      ensures PlaceOk(s', id)
    {
      assert PlaceOk(s, id);
      if Logged(s, id) {
        StillLogged(s, s', id);
      }
    }
  }

  /** Clone `id` changes hands; nobody else's clone does. */
  ghost predicate OthersStay(s: State, s': State, id: nat) {
    && s'.clones == s.clones && |s'.place| == |s.place| == |s.clones| && id < |s.place|
    && (forall k :: 0 <= k < |s.place| && k != id ==> s'.place[k] == s.place[k])
    && (forall k :: k != id ==> (s'.cell == Some(k) <==> s.cell == Some(k)))
    && (forall k :: k != id ==> (OldId(s'.reg) == Some(k) <==> OldId(s.reg) == Some(k)))
    && (forall k :: k != id ==> (NewId(s'.reg) == Some(k) <==> NewId(s.reg) == Some(k)))
    && (forall t :: t in s.takers ==> t in s'.takers)
    && (forall t :: t in s'.takers ==> (
          || (t in s.takers && s'.takers[t] == s.takers[t])
          || HeldId(s'.takers[t]).None? || HeldId(s'.takers[t]) == Some(id)))
    && (forall t :: t in s.takers && s'.takers[t] != s.takers[t] ==>
          HeldId(s.takers[t]).None? || HeldId(s.takers[t]) == Some(id))
  }

  /** Whoever has clone `id` now is where it is said to be. */
  ghost predicate Arrives(s: State, s': State, id: nat)
    requires OthersStay(s, s', id)
  {
    && (s'.cell == Some(id) <==> s'.place[id] == InCell)
    && (OldId(s'.reg) == Some(id) <==> s'.place[id] == RegOld)
    && (NewId(s'.reg) == Some(id) <==> s'.place[id] == RegNew)
    && (s'.place[id].Taken? ==> s'.place[id].t in s'.takers && HeldId(s'.takers[s'.place[id].t]) == Some(id))
    && (forall t :: t in s'.takers && HeldId(s'.takers[t]) == Some(id) ==> (
          || s'.place[id] == Taken(t)
          || (t in s.takers && s'.takers[t] == s.takers[t] && s.place[id] != Taken(t))))
    && !s.place[id].Gone?
    && s'.log == if s'.place[id].Gone? then s.log + [Event(id, s.clones[id], s'.place[id].fate)] else s.log
  }

  /** Steps that move one clone. */
  lemma OneMoves(s: State, s': State, id: nat)
    requires Owned(s) && OthersStay(s, s', id) && Arrives(s, s', id)
    ensures Owned(s')
  {
    forall t | t in s'.takers
      ensures HeldOk(s', t)
    {
      assert t in s.takers ==> HeldOk(s, t);
    }
    forall k | 0 <= k < |s'.place|
      ensures PlaceOk(s', k)
    {
      assert PlaceOk(s, k);
      if Logged(s, k) {
        StillLogged(s, s', k);
      }
      assert k == id && s'.place[id].Gone? ==> s'.log[|s.log|].id == id;
    }
    MovedLog(s, s', id);
  }

  lemma MovedLog(s: State, s': State, id: nat)
    requires LogOk(s) && OthersStay(s, s', id) && Arrives(s, s', id)
    ensures LogOk(s')
  {
    forall i | 0 <= i < |s'.log|
      ensures EventOk(s', s'.log[i]) && (i < |s.log| ==> s'.log[i].id != id)
    {
      assert i < |s.log| ==> EventOk(s, s.log[i]) && s'.log[i] == s.log[i];
    }
  }

  /** The registrar makes a clone. */
  lemma CloneOwned(s: State, s': State)
    requires Owned(s) && NewId(s.reg).None? && OldId(s.reg).None?
    requires s'.place == s.place + [RegNew] && s.clones <= s'.clones && |s'.clones| == |s'.place|
    requires s'.log == s.log && s'.takers == s.takers && s'.cell == s.cell
    requires NewId(s'.reg) == Some(|s.place|) && OldId(s'.reg).None?
    ensures Owned(s')
  {
    forall t | t in s'.takers
      ensures HeldOk(s', t)
    {
      assert HeldOk(s, t);
    }
    forall k | 0 <= k < |s'.place|
      ensures PlaceOk(s', k)
    {
      assert k < |s.place| ==> PlaceOk(s, k);
      if Logged(s, k) {
        StillLogged(s, s', k);
      }
    }
  }

  /** Steps that answer no call. */
  lemma ServiceFrame(s: State, s': State)
    requires ServiceOk(s) && |s.place| == |s'.place|
    requires s'.wakers == s.wakers && s'.clones == s.clones && s'.service == s.service && s'.served == s.served && s'.woken == s.woken
    requires Owing(s) ==> Owing(s')
    requires forall id :: 0 <= id < |s.place| ==> (
      || s'.place[id] == s.place[id]
      || (s.place[id].Taken? && (s'.place[id] == Gone(Woken) || s'.place[id] == Gone(Returned))))
    ensures ServiceOk(s')
  {
    forall m | m in s'.service
      ensures Answered(s', m, s'.service[m])
    {
      assert Answered(s, m, s.service[m]);
    }
  }

  /** Steps of the registrar leave every taker's claims standing. */
  lemma TakersFrame(s: State, s': State)
    requires Mechanism(s)
    requires s'.takers == s.takers && s'.busy == s.busy && s'.served >= s.served && ReturnedCalls(s') >= ReturnedCalls(s)
    requires s.clones <= s'.clones && (s.busy.Some? ==> s'.data == s.data)
    ensures forall t :: t in s'.takers ==> TakerOk(s', t)
  {
    forall t | t in s'.takers
      ensures TakerOk(s', t)
    {
      assert TakerOk(s, t);
    }
  }

  /** Nothing but the takers and the place of one of their clones changes. */
  lemma CellFrame(s: State, s': State)
    requires CellOk(s) && RegOk(s) && Covered(s)
    requires s' == s.(takers := s'.takers, place := s'.place, log := s'.log) && |s'.place| == |s.place|
    requires s.busy.Some? ==> s.busy.value in s'.takers
    ensures CellOk(s') && RegOk(s') && Covered(s')
  {
  }

  /** One taker moves while the cell stays as it is. */
  lemma OtherTakers(s: State, s': State, t: Tid, pc: TakePc)
    requires forall u :: u in s.takers ==> TakerOk(s, u)
    requires s' == s.(takers := s.takers[t := pc], place := s'.place, log := s'.log) && TakerOk(s', t)
    ensures forall u :: u in s'.takers ==> TakerOk(s', u)
  {
    forall u | u in s'.takers
      ensures TakerOk(s', u)
    {
      assert u in s.takers ==> TakerOk(s, u);
    }
  }

  /** A taker moves on with no claim on the cell before or after. */
  lemma OnlyLooks(s: State, t: Tid, pc: TakePc)
    requires Mechanism(s)
    requires t in s.takers ==> !Inside(s.takers[t])
    requires HeldId(pc).None? && pc.aim <= ReturnedCalls(s)
    requires pc.Done? || (pc.Peek? && (pc.seen.tag == Zero || pc.seen.tag == Waking)) ==> pc.aim <= s.served
    ensures Mechanism(SetTaker(s, t, pc))
  {
    var s' := SetTaker(s, t, pc);
    assert s.busy != Some(t) by {
      assert t in s.takers ==> TakerOk(s, t);
    }
    CellFrame(s, s');
    OtherTakers(s, s', t, pc);
  }

  lemma RegisterProtocol(s: State, w: Waker, s': State)
    requires Protocol(s) && Enabled(s, Register(w)) && s' == Do(s, Register(w))
    ensures Protocol(s')
  {
    TakersFrame(s, s');
  }

  lemma CalledHit(s: State, s': State)
    requires Mechanism(s) && s.reg.Called? && s' == s.(reg := Idle, cellCall := |s.wakers|)
    requires s.cache == Some(Current(s)) && s.word == Word(Current(s).vt, Registered)
    ensures Mechanism(s')
  {
    TakersFrame(s, s');
  }

  lemma CalledMiss(s: State, s': State)
    requires Mechanism(s) && s.reg.Called? && s' == s.(reg := Load)
    ensures Mechanism(s')
  {
    TakersFrame(s, s');
  }

  lemma CalledMechanism(s: State, s': State)
    requires Mechanism(s) && s.reg.Called? && s' == RegStep(s)
    ensures Mechanism(s')
  {
    if s.cache == Some(Current(s)) && s.word == Word(Current(s).vt, Registered) {
      CalledHit(s, s');
    } else {
      CalledMiss(s, s');
    }
  }

  lemma CalledProtocol(s: State, s': State)
    requires Protocol(s) && s.reg.Called? && s' == RegStep(s)
    ensures Protocol(s')
  {
    CalledMechanism(s, s');
    ServiceFrame(s, s');
  }

  lemma LoadMechanism(s: State, s': State)
    requires Mechanism(s) && s.reg.Load? && s' == RegStep(s)
    ensures Mechanism(s')
  {
    TakersFrame(s, s');
  }

  lemma LoadProtocol(s: State, s': State)
    requires Protocol(s) && s.reg.Load? && s' == RegStep(s)
    ensures Protocol(s')
  {
    LoadMechanism(s, s');
    ServiceFrame(s, s');
  }

  lemma LookWakingProtocol(s: State, s': State)
    requires Protocol(s) && s.reg.Look? && s.reg.seen.tag == Waking && s' == RegStep(s)
    ensures Protocol(s')
  {
    TakersFrame(s, s');
  }

  lemma LookLockProtocol(s: State, s': State)
    requires Protocol(s) && s.reg.Look? && s.reg.seen.tag == Registered && s.word == s.reg.seen && s' == RegStep(s)
    ensures Protocol(s')
  {
    TakersFrame(s, s');
  }

  lemma LookLockOwned(s: State, s': State)
    requires Inv(s) && s.reg.Look? && s.reg.seen.tag == Registered && s.word == s.reg.seen && s' == RegStep(s)
    ensures Owned(s')
  {
    OneMoves(s, s', s.cell.value);
  }

  lemma LookOtherMechanism(s: State, s': State)
    requires Mechanism(s) && s.reg.Look? && s.reg.seen.tag != Waking && !(s.reg.seen.tag == Registered && s.word == s.reg.seen) && s' == RegStep(s)
    ensures Mechanism(s')
  {
    TakersFrame(s, s');
  }

  lemma LookOtherProtocol(s: State, s': State)
    requires Protocol(s) && s.reg.Look? && s.reg.seen.tag != Waking && !(s.reg.seen.tag == Registered && s.word == s.reg.seen) && s' == RegStep(s)
    ensures Protocol(s')
  {
    LookOtherMechanism(s, s');
    ServiceFrame(s, s');
  }

  lemma NoopDataProtocol(s: State, s': State)
    requires Protocol(s) && s.reg.NoopData? && s' == RegStep(s)
    ensures Protocol(s')
  {
    TakersFrame(s, s');
  }

  lemma NoopDataOwned(s: State, s': State)
    requires Inv(s) && s.reg.NoopData? && s' == RegStep(s)
    ensures Owned(s')
  {
    CloneOwned(s, s');
  }

  lemma NoopVtProtocol(s: State, s': State)
    requires Protocol(s) && s.reg.NoopVt? && s' == RegStep(s)
    ensures Protocol(s')
  {
    TakersFrame(s, s');
  }

  lemma NoopVtOwned(s: State, s': State)
    requires Inv(s) && s.reg.NoopVt? && s' == RegStep(s)
    ensures Owned(s')
  {
    OneMoves(s, s', s.reg.id);
  }

  lemma WonProtocol(s: State, s': State)
    requires Protocol(s) && s.reg.Won? && s' == RegStep(s)
    ensures Protocol(s')
  {
    TakersFrame(s, s');
  }

  lemma DropOldProtocol(s: State, s': State)
    requires Protocol(s) && s.reg.DropOld? && s' == RegStep(s)
    ensures Protocol(s')
  {
    TakersFrame(s, s');
  }

  lemma DropOldOwned(s: State, s': State)
    requires Inv(s) && s.reg.DropOld? && s' == RegStep(s)
    ensures Owned(s')
  {
    OneMoves(s, s', s.reg.prior);
  }

  lemma ReplaceProtocol(s: State, s': State)
    requires Protocol(s) && s.reg.Replace? && s' == RegStep(s)
    ensures Protocol(s')
  {
    TakersFrame(s, s');
  }

  lemma ReplaceOwned(s: State, s': State)
    requires Inv(s) && s.reg.Replace? && s' == RegStep(s)
    ensures Owned(s')
  {
    CloneOwned(s, s');
  }

  lemma PublishProtocol(s: State, s': State)
    requires Protocol(s) && s.reg.Publish? && s' == RegStep(s)
    ensures Protocol(s')
  {
    TakersFrame(s, s');
  }

  lemma PublishOwned(s: State, s': State)
    requires Inv(s) && s.reg.Publish? && s' == RegStep(s)
    ensures Owned(s')
  {
    if s.word == Word(s.reg.vt, Registering) {
      OneMoves(s, s', s.reg.id);
    } else {
      OwnedFrame(s, s');
    }
  }

  lemma FailVtProtocol(s: State, s': State)
    requires Protocol(s) && s.reg.FailVt? && s' == RegStep(s)
    ensures Protocol(s')
  {
    TakersFrame(s, s');
  }

  lemma FailDataProtocol(s: State, s': State)
    requires Protocol(s) && s.reg.FailData? && s' == RegStep(s)
    ensures Protocol(s')
  {
    TakersFrame(s, s');
  }

  lemma FailWakeProtocol(s: State, s': State)
    requires Protocol(s) && s.reg.FailWake? && s' == RegStep(s)
    ensures Protocol(s')
  {
    TakersFrame(s, s');
  }

  lemma FailWakeOwned(s: State, s': State)
    requires Inv(s) && s.reg.FailWake? && s' == RegStep(s)
    ensures Owned(s')
  {
    OneMoves(s, s', s.reg.id);
  }

  lemma CacheMechanism(s: State, s': State)
    requires Mechanism(s) && s.reg.Cache? && s' == RegStep(s)
    ensures Mechanism(s')
  {
    TakersFrame(s, s');
  }

  lemma CacheProtocol(s: State, s': State)
    requires Protocol(s) && s.reg.Cache? && s' == RegStep(s)
    ensures Protocol(s')
  {
    CacheMechanism(s, s');
    ServiceFrame(s, s');
  }

  lemma StartProtocol(s: State, t: Tid, s': State)
    requires Protocol(s) && Enabled(s, Start(t)) && s' == Do(s, Start(t))
    ensures Protocol(s')
  {
    OnlyLooks(s, t, Begin(ReturnedCalls(s)));
    ServiceFrame(s, s');
  }

  lemma BeginProtocol(s: State, t: Tid, s': State)
    requires Protocol(s) && t in s.takers && s.takers[t].Begin? && s' == TakeStep(s, t)
    ensures Protocol(s')
  {
    assert TakerOk(s, t);
    OnlyLooks(s, t, Peek(s.takers[t].aim, s.word));
    ServiceFrame(s, s');
  }

  lemma PeekMarkProtocol(s: State, t: Tid, s': State)
    requires Protocol(s) && t in s.takers && s.takers[t].Peek? && s.takers[t].seen.tag == Registering && s.word == s.takers[t].seen && s' == TakeStep(s, t)
    ensures Protocol(s')
  {
    forall u | u in s'.takers
      ensures TakerOk(s', u)
    {
      assert u in s.takers ==> TakerOk(s, u);
    }
  }

  lemma PeekTakeTakers(s: State, t: Tid, s': State)
    requires Mechanism(s) && t in s.takers && s.takers[t].Peek? && s.takers[t].seen.tag == Registered && s.word == s.takers[t].seen && s' == TakeStep(s, t)
    ensures forall u :: u in s'.takers ==> TakerOk(s', u)
  {
    forall u | u in s'.takers
      ensures TakerOk(s', u)
    {
      assert u in s.takers ==> TakerOk(s, u);
    }
  }

  lemma PeekTakeService(s: State, t: Tid, s': State)
    requires Protocol(s) && t in s.takers && s.takers[t].Peek? && s.takers[t].seen.tag == Registered && s.word == s.takers[t].seen && s' == TakeStep(s, t)
    ensures ServiceOk(s')
  {
    forall m | m in s'.service
      ensures Answered(s', m, s'.service[m])
    {
      assert m in s.service ==> Answered(s, m, s.service[m]);
    }
  }

  lemma PeekTakeProtocol(s: State, t: Tid, s': State)
    requires Protocol(s) && t in s.takers && s.takers[t].Peek? && s.takers[t].seen.tag == Registered && s.word == s.takers[t].seen && s' == TakeStep(s, t)
    ensures Protocol(s')
  {
    PeekTakeTakers(s, t, s');
    PeekTakeService(s, t, s');
  }

  lemma PeekTakeOwned(s: State, t: Tid, s': State)
    requires Inv(s) && t in s.takers && s.takers[t].Peek? && s.takers[t].seen.tag == Registered && s.word == s.takers[t].seen && s' == TakeStep(s, t)
    ensures Owned(s')
  {
    OneMoves(s, s', s.cell.value);
  }

  /** If the cell is empty or being woken, every call that has returned was answered. */
  lemma NothingMissed(s: State)
    requires Mechanism(s)
    ensures s.word.tag == Zero || s.word.tag == Waking ==> ReturnedCalls(s) <= s.served
  {
  }

  lemma PeekOtherProtocol(s: State, t: Tid, s': State)
    requires Protocol(s) && t in s.takers && s.takers[t].Peek? && (s.word != s.takers[t].seen || s.word.tag == Zero || s.word.tag == Waking) && s' == TakeStep(s, t)
    ensures Protocol(s')
  {
    var pc := s.takers[t];
    assert TakerOk(s, t);
    if pc.seen.tag == Registering || pc.seen.tag == Registered {
      NothingMissed(s);
      OnlyLooks(s, t, Peek(pc.aim, s.word));
    } else {
      OnlyLooks(s, t, Done(pc.aim));
    }
    ServiceFrame(s, s');
  }

  lemma GotProtocol(s: State, t: Tid, s': State)
    requires Protocol(s) && t in s.takers && s.takers[t].Got? && s' == TakeStep(s, t)
    ensures Protocol(s')
  {
    forall u | u in s'.takers
      ensures TakerOk(s', u)
    {
      assert u in s.takers ==> TakerOk(s, u);
    }
  }

  lemma LoadedProtocol(s: State, t: Tid, s': State)
    requires Protocol(s) && t in s.takers && s.takers[t].Loaded? && s' == TakeStep(s, t)
    ensures Protocol(s')
  {
    forall u | u in s'.takers
      ensures TakerOk(s', u)
    {
      assert u in s.takers ==> TakerOk(s, u);
    }
  }

  lemma ClearedProtocol(s: State, t: Tid, s': State)
    requires Protocol(s) && t in s.takers && s.takers[t].Cleared? && s' == TakeStep(s, t)
    ensures Protocol(s')
  {
    forall u | u in s'.takers
      ensures TakerOk(s', u)
    {
      assert u in s.takers ==> TakerOk(s, u);
    }
  }

  lemma FinishMechanism(s: State, t: Tid, fate: Fate, s': State)
    requires Mechanism(s) && t in s.takers && HeldOk(s, t) && Enabled(s, Finish(t, fate)) && s' == Do(s, Finish(t, fate))
    ensures Mechanism(s')
  {
    assert TakerOk(s, t);
    CellFrame(s, s');
    OtherTakers(s, s', t, Done(s.takers[t].aim));
  }

  lemma FinishProtocol(s: State, t: Tid, fate: Fate, s': State)
    requires Protocol(s) && t in s.takers && HeldOk(s, t) && Enabled(s, Finish(t, fate)) && s' == Do(s, Finish(t, fate))
    ensures Protocol(s')
  {
    FinishMechanism(s, t, fate, s');
    ServiceFrame(s, s');
  }

  lemma FinishOwned(s: State, t: Tid, fate: Fate, s': State)
    requires Inv(s) && Enabled(s, Finish(t, fate)) && s' == Do(s, Finish(t, fate))
    ensures Owned(s')
  {
    assert TakerOk(s, t) && HeldOk(s, t);
    OneMoves(s, s', s.takers[t].id);
  }

  lemma QuietReg(s: State, s': State)
    requires s' == RegStep(s)
    requires s.reg.Called? || s.reg.Load? || s.reg.Won? || s.reg.FailVt? || s.reg.FailData? || s.reg.Cache?
    ensures SameOwners(s, s')
  {
  }

  lemma QuietLook(s: State, s': State)
    requires s.reg.Look? && (s.reg.seen.tag != Registered || s.word != s.reg.seen) && s' == RegStep(s)
    ensures SameOwners(s, s')
  {
  }

  lemma QuietPeek(s: State, t: Tid, s': State)
    requires t in s.takers && s.takers[t].Peek? && s' == TakeStep(s, t)
    requires s.takers[t].seen.tag == Registered ==> s.word != s.takers[t].seen
    ensures SameOwners(s, s')
  {
  }

  lemma QuietTake(s: State, t: Tid, s': State)
    requires t in s.takers && !s.takers[t].Peek? && s' == TakeStep(s, t)
    ensures SameOwners(s, s')
  {
    assert t in s'.takers && HeldId(s'.takers[t]) == HeldId(s.takers[t]);
    assert s'.takers == s.takers[t := s'.takers[t]];
  }

  lemma RegKeeps(s: State, s': State)
    requires Inv(s) && !s.reg.Idle? && s' == RegStep(s)
    ensures Inv(s')
  {
    match s.reg {
      case Called => CalledProtocol(s, s'); QuietReg(s, s'); OwnedFrame(s, s');
      case Load => LoadProtocol(s, s'); QuietReg(s, s'); OwnedFrame(s, s');
      case Look(v) => LookKeeps(s, s');
      case NoopData => NoopDataProtocol(s, s'); NoopDataOwned(s, s');
      case NoopVt(_) => NoopVtProtocol(s, s'); NoopVtOwned(s, s');
      case Won(_, _) => WonProtocol(s, s'); QuietReg(s, s'); OwnedFrame(s, s');
      case DropOld(_, _, _) => DropOldProtocol(s, s'); DropOldOwned(s, s');
      case Replace(_) => ReplaceProtocol(s, s'); ReplaceOwned(s, s');
      case Publish(_, _) => PublishProtocol(s, s'); PublishOwned(s, s');
      case FailVt(_) => FailVtProtocol(s, s'); QuietReg(s, s'); OwnedFrame(s, s');
      case FailData(_) => FailDataProtocol(s, s'); QuietReg(s, s'); OwnedFrame(s, s');
      case FailWake(_) => FailWakeProtocol(s, s'); FailWakeOwned(s, s');
      case Cache => CacheProtocol(s, s'); QuietReg(s, s'); OwnedFrame(s, s');
    }
  }

  lemma LookKeeps(s: State, s': State)
    requires Inv(s) && s.reg.Look? && s' == RegStep(s)
    ensures Inv(s')
  {
    if s.reg.seen.tag == Waking {
      LookWakingProtocol(s, s');
      QuietLook(s, s');
      OwnedFrame(s, s');
    } else if s.reg.seen.tag == Registered && s.word == s.reg.seen {
      LookLockProtocol(s, s');
      LookLockOwned(s, s');
    } else {
      LookOtherProtocol(s, s');
      QuietLook(s, s');
      OwnedFrame(s, s');
    }
  }

  lemma TakeKeeps(s: State, t: Tid, s': State)
    requires Inv(s) && Enabled(s, Take(t)) && s' == TakeStep(s, t)
    ensures Inv(s')
  {
    match s.takers[t] {
      case Begin(_) => BeginProtocol(s, t, s'); QuietTake(s, t, s');
      OwnedFrame(s, s');
      case Peek(_, _) => PeekKeeps(s, t, s');
      case Got(_, _, _) => GotProtocol(s, t, s'); QuietTake(s, t, s');
      OwnedFrame(s, s');
      case Loaded(_, _, _, _) => LoadedProtocol(s, t, s'); QuietTake(s, t, s');
      OwnedFrame(s, s');
      case Cleared(_, _, _, _) => ClearedProtocol(s, t, s'); QuietTake(s, t, s');
      OwnedFrame(s, s');
    }
  }

  lemma PeekKeeps(s: State, t: Tid, s': State)
    requires Inv(s) && t in s.takers && s.takers[t].Peek? && s' == TakeStep(s, t)
    ensures Inv(s')
  {
    var v := s.takers[t].seen;
    if s.word == v && v.tag == Registering {
      PeekMarkProtocol(s, t, s');
      QuietPeek(s, t, s');
      OwnedFrame(s, s');
    } else if s.word == v && v.tag == Registered {
      PeekTakeProtocol(s, t, s');
      PeekTakeOwned(s, t, s');
    } else {
      PeekOtherProtocol(s, t, s');
      QuietPeek(s, t, s');
      OwnedFrame(s, s');
    }
  }

  lemma StepKeeps(s: State, step: Step)
    requires Inv(s) && Enabled(s, step)
    ensures Inv(Do(s, step))
  {
    var s' := Do(s, step);
    match step {
      case Register(w) => RegisterProtocol(s, w, s'); OwnedFrame(s, s');
      case Reg => RegKeeps(s, s');
      case Start(t) => StartProtocol(s, t, s'); OwnedFrame(s, s');
      case Take(t) => TakeKeeps(s, t, s');
      case Finish(t, fate) => FinishProtocol(s, t, fate, s'); FinishOwned(s, t, fate, s');
    }
  }

  // ---------------------------------------------------------------------------------------
  // Whole runs
  // ---------------------------------------------------------------------------------------

  /** `steps` lead from `s` to `s'`. */
  ghost predicate Runs(s: State, steps: seq<Step>, s': State)
    decreases |steps|
  {
    if steps == [] then s' == s
    else Enabled(s, steps[0]) && Runs(Do(s, steps[0]), steps[1..], s')
  }

  lemma {:induction false} RunKeeps(s: State, steps: seq<Step>, s': State)
    requires Inv(s) && Runs(s, steps, s')
    ensures Inv(s')
    decreases |steps|
  {
    if steps != [] {
      StepKeeps(s, steps[0]);
      RunKeeps(Do(s, steps[0]), steps[1..], s');
    }
  }

  lemma ReachableInv(steps: seq<Step>, s: State)
    requires Runs(Initial(), steps, s)
    ensures Inv(s)
  {
    InitialInv();
    RunKeeps(Initial(), steps, s);
  }

  /** The waker of call `m`, or of a later call, was woken, handed out, or is about to be. */
  ghost predicate AnsweredFrom(s: State, m: nat) {
    exists n :: n >= m && n in s.service && Answered(s, n, s.service[n])
  }

  /** `w` is what the cell holds. */
  predicate Stored(s: State, w: Waker) {
    s.word == Word(w.vt, Registered) && s.data == w.data
  }

  /** Whenever no register call is in progress, the waker of the last one is in the cell, or it was
      taken out or notified since that call began. */
  lemma RegisterLosesNothing(steps: seq<Step>, s: State)
    requires Runs(Initial(), steps, s) && s.reg.Idle? && s.wakers != []
    ensures Stored(s, s.wakers[|s.wakers| - 1]) || AnsweredFrom(s, |s.wakers|)
  {
    ReachableInv(steps, s);
    if s.served >= |s.wakers| {
      assert s.served in s.service && Answered(s, s.served, s.service[s.served]);
    }
  }

  /** When a take returns, some registration at least as recent as any that had returned when the
      take began has been answered: a wake after a registration is never without effect. */
  lemma WakeIsNotLost(steps: seq<Step>, s: State, t: Tid)
    requires Runs(Initial(), steps, s) && t in s.takers && (s.takers[t].Done? || s.takers[t].Holding?)
    requires s.takers[t].aim > 0
    ensures AnsweredFrom(s, s.takers[t].aim)
  {
    ReachableInv(steps, s);
    assert TakerOk(s, t);
    assert s.served in s.service && Answered(s, s.served, s.service[s.served]);
  }

  /** No clone is consumed twice, and each is consumed as the waker it was cloned from; a taker that
      won the cell ends up with the two pointers of one registration. */
  lemma OwnershipIsConserved(steps: seq<Step>, s: State)
    requires Runs(Initial(), steps, s)
    ensures forall i, j :: 0 <= i < j < |s.log| ==> s.log[i].id != s.log[j].id
    ensures forall i :: 0 <= i < |s.log| ==> s.log[i].id < |s.clones| && s.log[i].waker == s.clones[s.log[i].id]
    ensures forall t :: t in s.takers && s.takers[t].Holding? ==>
      s.takers[t].id < |s.clones| && s.takers[t].waker == s.clones[s.takers[t].id] && !Logged(s, s.takers[t].id)
  {
    ReachableInv(steps, s);
    forall i | 0 <= i < |s.log|
      ensures s.log[i].id < |s.clones| && s.log[i].waker == s.clones[s.log[i].id]
    {
      assert EventOk(s, s.log[i]);
    }
    forall t | t in s.takers && s.takers[t].Holding?
      ensures s.takers[t].id < |s.clones| && s.takers[t].waker == s.clones[s.takers[t].id] && !Logged(s, s.takers[t].id)
    {
      assert TakerOk(s, t) && HeldOk(s, t);
      assert forall i :: 0 <= i < |s.log| ==> EventOk(s, s.log[i]);
    }
  }

  /** Between winning the cell and releasing it a taker is alone with it. */
  lemma TakersExclude(steps: seq<Step>, s: State, t: Tid, u: Tid)
    requires Runs(Initial(), steps, s) && t in s.takers && u in s.takers && Inside(s.takers[t])
    ensures Inside(s.takers[u]) ==> u == t
    ensures !Locked(s) && s.word.tag == Waking
  {
    ReachableInv(steps, s);
    assert TakerOk(s, t) && TakerOk(s, u);
  }

  /** An empty cell keeps no pointer to a waker, except while one is being put in or cleared out. */
  lemma EmptyCellHoldsNoPointer(steps: seq<Step>, s: State)
    requires Runs(Initial(), steps, s) && s.word == EMPTY && !s.reg.NoopVt? && !s.reg.FailData?
    ensures s.data == NULL && s.cell.None?
  {
    ReachableInv(steps, s);
  }

  /** The registrar's publication fails only because a taker marked the cell. */
  lemma FailedPublishFindsWaking(steps: seq<Step>, s: State)
    requires Runs(Initial(), steps, s) && s.reg.Publish? && s.word != Word(s.reg.vt, Registering)
    ensures s.word.tag == Waking
  {
    ReachableInv(steps, s);
  }

  /** Dropping the cell, which only happens when no call on it is in progress. */
  function Dispose(s: State): State {
    if s.word.tag == Registered && s.word.vt != NOOP then
      Record(s, CellId(s), Waker(s.word.vt, s.data), Dropped).(cell := None)
    else s
  }

  lemma DisposeLogsTheCell(s: State)
    requires Inv(s) && s.reg.Idle?
    ensures LogOk(Dispose(s)) && Dispose(s).clones == s.clones
    ensures forall id: nat :: Logged(s, id) || s.cell == Some(id) ==> Logged(Dispose(s), id)
  {
    var s' := Dispose(s);
    forall id: nat | Logged(s, id) || s.cell == Some(id)
      ensures Logged(s', id)
    {
      if Logged(s, id) {
        StillLogged(s, s', id);
      } else {
        assert s'.log[|s.log|].id == id;
      }
    }
  }

  /** In the end every clone ever made has been consumed exactly once, as what it was cloned from. */
  lemma EveryCloneIsConsumedOnce(steps: seq<Step>, s: State, id: nat)
    requires Runs(Initial(), steps, s) && id < |s.clones|
    requires s.reg.Idle? && forall t :: t in s.takers ==> s.takers[t].Done?
    ensures exists i :: 0 <= i < |Dispose(s).log| && ConsumedOnceAt(Dispose(s).log, i, id, s.clones[id])
  {
    ReachableInv(steps, s);
    assert PlaceOk(s, id);
    DisposeLogsTheCell(s);
    var s' := Dispose(s);
    assert Logged(s', id);
    var i :| 0 <= i < |s'.log| && s'.log[i].id == id;
    assert EventOk(s', s'.log[i]);
    assert ConsumedOnceAt(s'.log, i, id, s.clones[id]);
  }

  ghost predicate ConsumedOnceAt(log: seq<Event>, i: int, id: nat, w: Waker)
    requires 0 <= i < |log|
  {
    && log[i].id == id && log[i].waker == w
    && (forall j :: 0 <= j < |log| && log[j].id == id ==> j == i)
  }
}
