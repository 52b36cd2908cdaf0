/** The token through which wakers reach a task header that may be going away, as a transition system:
    one owner that deactivates the token, any number of wakers. */
module WakeToken {
  const ALIVE: nat := 1
  const UNIT: nat := 2
  const SPIN_LIMIT: nat := 6
  /** The word has 32 bits; a waker takes a guard only while fewer than `GUARD_LIMIT` exist. */
  const WORD: nat := 0x1_0000_0000
  const GUARD_LIMIT: nat := 0x7fff_ffff

  type Tid = nat

  /** A call of `wake_impl`. */
  datatype WakePc =
    | Begin
    | Acquire(seen: nat)
    | Guarded
    | Point
    | Deref
    | Unguard
    | Notify
    | Done

  /** The owner: before, in and after `deactivate_and_wait`. */
  datatype OwnerPc =
    | Live
    | Load(spins: nat)
    | Wait(seen: nat)
    | Asleep
    | Unbind
    | Returned

  /** `guards` is auxiliary: the wakers that hold a guard. `freed` says that the header is gone. */
  datatype State = State(word: nat, header: bool, freed: bool, owner: OwnerPc, wakers: map<Tid, WakePc>, guards: set<Tid>)

  /** The header is bound before the first waker exists. */
  function Initial(): State {
    State(ALIVE, true, false, Live, map[], {})
  }

  // ---------------------------------------------------------------------------------------
  // Steps
  // ---------------------------------------------------------------------------------------

  datatype Step = Wake(t: Tid) | WakeStep(t: Tid) | Deactivate | OwnerStep | Spurious | Free

  predicate Enabled(s: State, step: Step) {
    match step
    case Wake(t) => t !in s.wakers || s.wakers[t].Done?
    case WakeStep(t) => t in s.wakers && !s.wakers[t].Done? && (s.wakers[t].Acquire? ==> |s.guards| < GUARD_LIMIT)
    case Deactivate => s.owner.Live?
    case OwnerStep => s.owner.Load? || s.owner.Wait? || s.owner.Unbind?
    case Spurious => s.owner.Asleep?
    case Free => s.owner.Returned? && !s.freed
  }

  function SetWaker(s: State, t: Tid, pc: WakePc): State {
    s.(wakers := s.wakers[t := pc])
  }

  /** Looks at a loaded word: gives up if the token is dead, else tries to count itself in. */
  function Consider(word: nat): WakePc {
    if word % 2 == 0 then Done else Acquire(word)
  }

  function DoWake(s: State, t: Tid): (s': State)
    requires t in s.wakers
    ensures t in s'.wakers && s'.wakers == s.wakers[t := s'.wakers[t]]
  {
    match s.wakers[t]
    case Begin => SetWaker(s, t, Consider(s.word))
    case Acquire(seen) =>
      if s.word != seen then SetWaker(s, t, Consider(s.word))
      else SetWaker(s, t, Guarded).(word := (s.word + UNIT) % WORD, guards := s.guards + {t})
    case Guarded => SetWaker(s, t, if s.word % 2 == 0 then Unguard else Point)
    case Point => SetWaker(s, t, if s.header then Deref else Unguard)
    case Deref => SetWaker(s, t, Unguard)
    case Unguard =>
      SetWaker(s, t, if s.word == UNIT then Notify else Done).(word := (s.word - UNIT) % WORD, guards := s.guards - {t})
    case Notify => SetWaker(s, t, Done).(owner := if s.owner.Asleep? then Load(0) else s.owner)
    case Done => s
  }

  function DoOwner(s: State): State {
    match s.owner
    case Load(spins) =>
      s.(owner := if s.word == 0 then Unbind else if spins <= SPIN_LIMIT then Load(spins + 1) else Wait(s.word))
    case Wait(seen) => s.(owner := if s.word == seen then Asleep else Load(0))
    case Unbind => s.(owner := Returned, header := false)
    case _ => s
  }

  function Do(s: State, step: Step): State
    requires Enabled(s, step)
  {
    match step
    case Wake(t) => SetWaker(s, t, Begin)
    case WakeStep(t) => DoWake(s, t)
    case Deactivate => s.(word := s.word - s.word % 2, owner := Load(0))
    case OwnerStep => DoOwner(s)
    case Spurious => s.(owner := Load(0))
    case Free => s.(freed := true)
  }

  // ---------------------------------------------------------------------------------------
  // Invariant
  // ---------------------------------------------------------------------------------------

  predicate Holds(pc: WakePc) {
    pc.Guarded? || pc.Point? || pc.Deref? || pc.Unguard?
  }

  predicate WakerOk(t: Tid, pc: WakePc, guards: set<Tid>) {
    && (Holds(pc) <==> t in guards)
    && (pc.Acquire? ==> pc.seen % 2 == 1)
  }

  /** The word is the alive bit and the number of guards. */
  predicate WordOk(word: nat, owner: OwnerPc, count: nat) {
    word == (if owner.Live? then ALIVE else 0) + UNIT * count && count <= GUARD_LIMIT
  }

  predicate OwnerOk(s: State) {
    && (s.owner.Unbind? || s.owner.Returned? ==> s.guards == {})
    && (s.owner.Wait? ==> s.owner.seen > 0)
    && (s.header <==> !s.owner.Returned?)
    && (s.freed ==> s.owner.Returned?)
  }

  ghost predicate SomeoneNotifies(wakers: map<Tid, WakePc>) {
    exists t :: t in wakers && wakers[t].Notify?
  }

  ghost predicate Inv(s: State) {
    && WordOk(s.word, s.owner, |s.guards|) && OwnerOk(s)
    && (s.owner.Asleep? ==> s.guards != {} || SomeoneNotifies(s.wakers))
    && (forall t :: t in s.guards ==> t in s.wakers)
    && (forall t :: t in s.wakers ==> WakerOk(t, s.wakers[t], s.guards))
  }

  lemma InitialInv()
    ensures Inv(Initial())
  {
  }

  lemma StillNotifies(wakers: map<Tid, WakePc>, t: Tid, pc: WakePc)
    requires SomeoneNotifies(wakers) && (t in wakers && wakers[t].Notify? ==> pc.Notify?)
    ensures SomeoneNotifies(wakers[t := pc])
  {
    var u :| u in wakers && wakers[u].Notify?;
    assert u in wakers[t := pc] && wakers[t := pc][u].Notify?;
  }

  lemma LookKeeps(s: State, t: Tid, s': State)
    requires Inv(s) && t in s.wakers && s' == DoWake(s, t)
    requires s.wakers[t].Begin? || s.wakers[t].Guarded? || s.wakers[t].Point? || s.wakers[t].Deref?
    ensures Inv(s')
  {
    assert WakerOk(t, s.wakers[t], s.guards);
    if SomeoneNotifies(s.wakers) {
      StillNotifies(s.wakers, t, s'.wakers[t]);
    }
    match s.wakers[t] {
      case Begin =>
      case Guarded =>
      case Point =>
      case Deref =>
    }
  }

  lemma AcquireKeeps(s: State, t: Tid, s': State)
    requires Inv(s) && t in s.wakers && s.wakers[t].Acquire? && |s.guards| < GUARD_LIMIT && s' == DoWake(s, t)
    ensures Inv(s')
  {
    assert WakerOk(t, s.wakers[t], s.guards);
    if SomeoneNotifies(s.wakers) {
      StillNotifies(s.wakers, t, s'.wakers[t]);
    }
  }

  lemma UnguardKeeps(s: State, t: Tid, s': State)
    requires Inv(s) && t in s.wakers && s.wakers[t].Unguard? && s' == DoWake(s, t)
    ensures Inv(s')
  {
    LastGuardNotifies(s, t, s');
    assert WakerOk(t, s.wakers[t], s.guards);
    if SomeoneNotifies(s.wakers) {
      StillNotifies(s.wakers, t, s'.wakers[t]);
    }
  }

  lemma NotifyKeeps(s: State, t: Tid, s': State)
    requires Inv(s) && t in s.wakers && s.wakers[t].Notify? && s' == DoWake(s, t)
    ensures Inv(s')
  {
    assert WakerOk(t, s.wakers[t], s.guards);
  }

  lemma WakeKeeps(s: State, t: Tid, s': State)
    requires Inv(s) && Enabled(s, WakeStep(t)) && s' == DoWake(s, t)
    ensures Inv(s')
  {
    match s.wakers[t] {
      case Acquire(_) => AcquireKeeps(s, t, s');
      case Unguard => UnguardKeeps(s, t, s');
      case Notify => NotifyKeeps(s, t, s');
      case _ => LookKeeps(s, t, s');
    }
  }

  /** Taking the only guard away leaves the word at one unit only if the token is dead. */
  lemma LastGuardNotifies(s: State, t: Tid, s': State)
    requires Inv(s) && t in s.wakers && s.wakers[t].Unguard? && s' == DoWake(s, t)
    ensures |s'.guards| == |s.guards| - 1 && s'.word == s.word - UNIT
    ensures s.owner.Asleep? && s'.guards == {} ==> SomeoneNotifies(s'.wakers)
  {
    assert WakerOk(t, s.wakers[t], s.guards);
    if s.owner.Asleep? && s'.guards == {} {
      assert |s'.guards| == 0;
      assert s'.wakers[t].Notify?;
    }
  }

  lemma OwnerKeeps(s: State, s': State)
    requires Inv(s) && Enabled(s, OwnerStep) && s' == DoOwner(s)
    ensures Inv(s')
  {
  }

  lemma StepKeeps(s: State, step: Step)
    requires Inv(s) && Enabled(s, step)
    ensures Inv(Do(s, step))
  {
    var s' := Do(s, step);
    match step {
      case Wake(t) =>
        assert t in s.wakers ==> WakerOk(t, s.wakers[t], s.guards);
        if SomeoneNotifies(s.wakers) {
          StillNotifies(s.wakers, t, Begin);
        }
      case WakeStep(t) => WakeKeeps(s, t, s');
      case Deactivate =>
      case OwnerStep => OwnerKeeps(s, s');
      case Spurious =>
      case Free =>
    }
  }

  // ---------------------------------------------------------------------------------------
  // Whole runs
  // ---------------------------------------------------------------------------------------

  ghost predicate Runs(s: State, steps: seq<Step>, s': State)
    decreases |steps|
  {
    if steps == [] then s' == s
    else Enabled(s, steps[0]) && Runs(Do(s, steps[0]), steps[1..], s')
  }

  lemma {:induction false} RunKeeps(s: State, steps: seq<Step>, s': State)
    requires Inv(s) && Runs(s, steps, s')
    ensures Inv(s')
    decreases |steps|
  {
    if steps != [] {
      StepKeeps(s, steps[0]);
      RunKeeps(Do(s, steps[0]), steps[1..], s');
    }
  }

  lemma ReachableInv(steps: seq<Step>, s: State)
    requires Runs(Initial(), steps, s)
    ensures Inv(s)
  {
    InitialInv();
    RunKeeps(Initial(), steps, s);
  }

  /** Once deactivation has returned no guard is live, and none ever will be. */
  lemma ReturnsWithoutGuards(steps: seq<Step>, s: State, more: seq<Step>, s': State)
    requires Runs(Initial(), steps, s) && s.owner.Returned? && Runs(s, more, s')
    ensures s'.owner.Returned? && s'.guards == {} && s'.word == 0
    ensures forall t :: t in s'.wakers ==> !Holds(s'.wakers[t])
  {
    ReachableInv(steps, s);
    RunKeeps(s, more, s');
    StaysReturned(s, more, s');
    forall t | t in s'.wakers
      ensures !Holds(s'.wakers[t])
    {
      assert WakerOk(t, s'.wakers[t], s'.guards);
    }
  }

  lemma {:induction false} StaysReturned(s: State, steps: seq<Step>, s': State)
    requires s.owner.Returned? && Runs(s, steps, s')
    ensures s'.owner.Returned?
    decreases |steps|
  {
    if steps != [] {
      StaysReturned(Do(s, steps[0]), steps[1..], s');
    }
  }

  /** A waker that is using the header uses one that is still there. */
  lemma NoUseAfterFree(steps: seq<Step>, s: State, t: Tid)
    requires Runs(Initial(), steps, s) && t in s.wakers && s.wakers[t].Deref?
    ensures !s.freed && s.header && !s.owner.Returned?
  {
    ReachableInv(steps, s);
    assert WakerOk(t, s.wakers[t], s.guards);
  }

  /** A sleeping owner is released: a guard is still live, or the waker that held the last one is
      about to wake the owner. */
  lemma SleeperIsReleased(steps: seq<Step>, s: State)
    requires Runs(Initial(), steps, s) && s.owner.Asleep?
    ensures exists t :: t in s.wakers && (Holds(s.wakers[t]) || s.wakers[t].Notify?)
  {
    ReachableInv(steps, s);
    if s.guards != {} {
      var t :| t in s.guards;
      assert WakerOk(t, s.wakers[t], s.guards);
    }
  }

  /** The word never overflows: its low bit is the alive bit and the rest counts the guards. */
  lemma WordIsExact(steps: seq<Step>, s: State)
    requires Runs(Initial(), steps, s)
    ensures s.word < WORD && s.word / 2 == |s.guards| && (s.word % 2 == 1 <==> s.owner.Live?)
    ensures forall t :: t in s.wakers && Holds(s.wakers[t]) <==> t in s.guards
  {
    ReachableInv(steps, s);
    forall t
      ensures t in s.wakers && Holds(s.wakers[t]) <==> t in s.guards
    {
      assert t in s.wakers ==> WakerOk(t, s.wakers[t], s.guards);
    }
  }
}
