/** A superblock over many epochs, one memory access at a time: what a call that is still between its two
    accesses, or an answer that has not been acted on, can do to the next owner. */
module SuperblockEpochs {
  import opened Prelude
  import opened Superblock

  /** `home` says that the superblock is back in its shard; `holding` that a thread owns it. `checking` are the
      threads in `free_one` that filled the mask and have yet to load the flag, `retiring` those in
      `set_inactive` that have yet to load the mask, `told` the number of threads told to return the
      superblock that have not done so yet. */
  datatype State = State(
    mask: set<nat>, active: bool, home: bool, holding: bool, checking: set<Tid>, retiring: set<Tid>, told: nat)

  function Initial(): State {
    State({}, false, true, false, {}, {}, 0)
  }

  datatype Step =
    | Open
    | Alloc(slot: nat)
    | FreeMask(tid: Tid, slot: nat)
    | FreeFlag(tid: Tid)
    | LetGoFlag(tid: Tid)
    | LetGoMask(tid: Tid)
    | Return

  /** A slot that is out of the mask is in a client's hands while the superblock is not at home. */
  predicate Enabled(s: State, step: Step) {
    match step
    case Open => s.home
    case Alloc(slot) => s.holding && LowestBit(s.mask, slot)
    case FreeMask(tid, slot) => !s.home && tid !in s.checking && slot < 64 && slot !in s.mask
    case FreeFlag(tid) => tid in s.checking
    case LetGoFlag(tid) => s.holding && tid !in s.retiring
    case LetGoMask(tid) => tid in s.retiring
    case Return => s.told > 0
  }

  function Do(s: State, step: Step): State
    requires Enabled(s, step)
  {
    match step
    case Open => s.(mask := FULL, active := true, home := false, holding := true)
    case Alloc(slot) => s.(mask := s.mask - {slot})
    case FreeMask(tid, slot) =>
      var mask := s.mask + {slot};
      s.(mask := mask, checking := if mask == FULL then s.checking + {tid} else s.checking)
    case FreeFlag(tid) => s.(checking := s.checking - {tid}, told := if s.active then s.told else s.told + 1)
    case LetGoFlag(tid) => s.(active := false, holding := false, retiring := s.retiring + {tid})
    case LetGoMask(tid) => s.(retiring := s.retiring - {tid}, told := if s.mask == FULL then s.told + 1 else s.told)
    case Return => s.(told := s.told - 1, home := true)
  }

  /** A return that frees what is not the returning thread's to free: the superblock is at home already, or
      somebody owns it, or a slot of it is in use. */
  predicate Wrong(s: State, step: Step) {
    step.Return? && (s.home || s.holding || s.mask != FULL)
  }

  /** The owner lets go with every slot free and no `free_one` between its accesses. */
  predicate Careful(s: State, step: Step) {
    step.LetGoFlag? ==> s.checking == {} && s.mask == FULL
  }

  /** A run in which every owner lets go like that. */
  ghost predicate CarefulRun(s: State, steps: seq<Step>, s': State)
    decreases |steps|
  {
    if steps == [] then s' == s
    else Enabled(s, steps[0]) && Careful(s, steps[0]) && CarefulRun(Do(s, steps[0]), steps[1..], s')
  }

  /** At home with nothing pending; owned with no answer pending; or let go of, entirely free, with exactly
      one call or answer pending. */
  predicate Inv(s: State) {
    && s.mask <= FULL
    && (s.home ==> !s.holding && s.checking == {} && s.retiring == {} && s.told == 0)
    && (s.holding ==> !s.home && s.active && s.retiring == {} && s.told == 0)
    && (!s.home && !s.holding ==> !s.active && s.mask == FULL && s.checking == {} && |s.retiring| + s.told == 1)
  }

  lemma StepKeeps(s: State, step: Step)
    requires Inv(s) && Enabled(s, step) && Careful(s, step)
    ensures Inv(Do(s, step)) && !Wrong(s, step)
  {
    match step {
      case Open =>
      case Alloc(_) =>
      case FreeMask(_, slot) => assert slot in FULL;
      case FreeFlag(_) =>
      case LetGoFlag(tid) => assert |{} + {tid}| == 1;
      case LetGoMask(tid) => assert |s.retiring - {tid}| == |s.retiring| - 1;
      case Return =>
    }
  }

  lemma {:induction false} RunKeeps(s: State, steps: seq<Step>, s': State)
    requires Inv(s) && CarefulRun(s, steps, s')
    ensures Inv(s')
    decreases |steps|
  {
    if steps != [] {
      StepKeeps(s, steps[0]);
      RunKeeps(Do(s, steps[0]), steps[1..], s');
    }
  }

  /** No careful continuation contains a wrong return. */
  ghost predicate NeverWrong(s: State) {
    forall steps, s', step :: CarefulRun(s, steps, s') && Enabled(s', step) && Careful(s', step) ==> !Wrong(s', step)
  }

  // ---------------------------------------------------------------------------------------
  // What a careless owner sets off
  // ---------------------------------------------------------------------------------------

  lemma Nil(s: State)
    ensures CarefulRun(s, [], s)
  {
  }

  lemma Cons(s: State, step: Step, rest: seq<Step>, s': State)
    requires Enabled(s, step) && !step.LetGoFlag? && CarefulRun(Do(s, step), rest, s')
    ensures CarefulRun(s, [step] + rest, s')
  {
    assert ([step] + rest)[1..] == rest;
  }

  /** Somebody told while a slot is in use returns it then. */
  lemma WrongNow(s: State)
    requires s.told > 0 && (s.home || s.holding || s.mask != FULL)
    ensures !NeverWrong(s)
  {
    Nil(s);
    assert Enabled(s, Return) && Careful(s, Return) && Wrong(s, Return);
  }

  lemma WrongNext(s: State, step: Step)
    requires Enabled(s, step) && !step.LetGoFlag? && !NeverWrong(Do(s, step))
    ensures !NeverWrong(s)
  {
    var steps, s', last :| CarefulRun(Do(s, step), steps, s') && Enabled(s', last) && Careful(s', last) && Wrong(s', last);
    Cons(s, step, steps, s');
  }

  /** Two threads told: the second return finds the superblock at home. */
  lemma ToldTwice(s: State)
    requires s.told >= 2
    ensures !NeverWrong(s)
  {
    WrongNow(Do(s, Return));
    WrongNext(s, Return);
  }

  /** The mask is full, one thread has yet to load the flag and another the mask: both will be told. */
  lemma BothWillBeTold(s: State, t: Tid, u: Tid)
    requires s.mask == FULL && !s.active && t in s.checking && u in s.retiring
    ensures !NeverWrong(s)
  {
    var s1 := Do(s, FreeFlag(t));
    var s2 := Do(s1, LetGoMask(u));
    ToldTwice(s2);
    WrongNext(s1, LetGoMask(u));
    WrongNext(s, FreeFlag(t));
  }

  /** Slots still in use when the owner lets go: once the clients have freed them, the thread that frees the
      last one and the owner, who has yet to load the mask, will both be told. */
  lemma {:induction false} ClientsFillTheMask(s: State, u: Tid)
    requires s.mask <= FULL && s.mask != FULL && !s.active && !s.home && s.checking == {} && u in s.retiring
    ensures !NeverWrong(s)
    decreases |FULL - s.mask|
  {
    NothingInUse(SbState(s.mask, s.active));
    var slot :| slot in FULL - s.mask;
    var step := FreeMask(0, slot);
    var s1 := Do(s, step);
    assert FULL - s1.mask == (FULL - s.mask) - {slot};
    if s1.mask == FULL {
      BothWillBeTold(s1, 0, u);
    } else {
      ClientsFillTheMask(s1, u);
    }
    WrongNext(s, step);
  }

  /** Across epochs: let every owner so far have let go carefully. Then no thread will ever free what is not its
      own to free, however often the superblock is reopened and as long as later owners are careful, if and
      only if this owner too lets go with every slot free and no `free_one` between its accesses. */
  lemma LettingGoIsSafeIff(steps: seq<Step>, s: State, tid: Tid)
    requires CarefulRun(Initial(), steps, s) && s.holding
    ensures Enabled(s, LetGoFlag(tid))
    ensures NeverWrong(Do(s, LetGoFlag(tid))) <==> s.checking == {} && s.mask == FULL
  {
    RunKeeps(Initial(), steps, s);
    var s1 := Do(s, LetGoFlag(tid));
    if s.checking == {} && s.mask == FULL {
      StepKeeps(s, LetGoFlag(tid));
      forall more, s', step | CarefulRun(s1, more, s') && Enabled(s', step) && Careful(s', step)
        ensures !Wrong(s', step)
      {
        RunKeeps(s1, more, s');
        StepKeeps(s', step);
      }
    } else if s.checking == {} {
      ClientsFillTheMask(s1, tid);
    } else {
      var t :| t in s.checking;
      if s.mask == FULL {
        BothWillBeTold(s1, t, tid);
      } else {
        WrongNow(Do(s1, FreeFlag(t)));
        WrongNext(s1, FreeFlag(t));
      }
    }
  }

  /** So over every careful run, across all epochs, no return is wrong. */
  lemma CarefulRunsReturnOnce(steps: seq<Step>, s: State)
    requires CarefulRun(Initial(), steps, s)
    ensures NeverWrong(s) && s.told <= 1
  {
    RunKeeps(Initial(), steps, s);
    forall more, s', step | CarefulRun(s, more, s') && Enabled(s', step) && Careful(s', step)
      ensures !Wrong(s', step)
    {
      RunKeeps(s, more, s');
      StepKeeps(s', step);
    }
  }
}
