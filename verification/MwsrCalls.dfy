/** What a register call and a take come to when nobody else moves: the call stores its waker and wakes nobody
    unless it meets a take, and the take hands out the waker that was registered last. */
module MwsrCalls {
  import opened Prelude
  import opened Mwsr

  // ---------------------------------------------------------------------------------------
  // Moving alone
  // ---------------------------------------------------------------------------------------

  /** `n` accesses of the registrar, nobody else moving. */
  ghost predicate Regs(s: State, n: nat, s': State)
    decreases n
  {
    if n == 0 then s' == s else !s.reg.Idle? && Regs(RegStep(s), n - 1, s')
  }

  /** The registrar, moving alone, comes to `s'`. */
  ghost predicate RegComesTo(s: State, s': State) {
    exists n: nat :: Regs(s, n, s')
  }

  lemma RegMoves(s: State, s': State)
    requires !s.reg.Idle? && s' == RegStep(s)
    ensures RegComesTo(s, s')
  {
    assert Regs(s', 0, s');
    assert Regs(s, 1, s');
  }

  lemma {:induction false} RegsAgain(s: State, n: nat, s': State, m: nat, s'': State)
    requires Regs(s, n, s') && Regs(s', m, s'')
    ensures Regs(s, n + m, s'')
    decreases n
  {
    if n > 0 {
      RegsAgain(RegStep(s), n - 1, s', m, s'');
    }
  }

  lemma RegThen(s: State, s': State, s'': State)
    requires RegComesTo(s, s') && RegComesTo(s', s'')
    ensures RegComesTo(s, s'')
  {
    var n: nat :| Regs(s, n, s');
    var m: nat :| Regs(s', m, s'');
    RegsAgain(s, n, s', m, s'');
  }

  /** A call, moving alone, has one end. */
  lemma {:induction false} RegEndIsUnique(s: State, n: nat, s': State, m: nat, s'': State)
    requires Regs(s, n, s') && s'.reg.Idle? && Regs(s, m, s'') && s''.reg.Idle?
    ensures s' == s''
    decreases n
  {
    if n > 0 && m > 0 {
      RegEndIsUnique(RegStep(s), n - 1, s', m - 1, s'');
    }
  }

  // ---------------------------------------------------------------------------------------
  // Register
  // ---------------------------------------------------------------------------------------

  /** The waker of the last call is in the cell and in the cache, under that call's number. */
  predicate Holds(s: State, w: Waker) {
    && s.reg.Idle? && Stored(s, w) && s.cache == Some(w) && s.cellCall == |s.wakers|
    && s.cell.Some? && s.cell.value < |s.clones| && s.clones[s.cell.value] == w
  }

  /** Nothing was woken, answered or taken, and nobody but the registrar was affected. */
  predicate NobodyNoticed(s: State, s': State) {
    && s'.woken == s.woken && s'.service == s.service && s'.served == s.served
    && s'.takers == s.takers && s'.wakers == s.wakers && s'.busy == s.busy
  }

  predicate Hit(s: State) {
    s.cache == Some(Current(s)) && s.word == Word(Current(s).vt, Registered)
  }

  /** A call that finds its waker in the cell already leaves it there. */
  lemma RegisterHit(s: State) returns (s': State)
    requires Inv(s) && s.reg.Called? && Hit(s)
    ensures RegComesTo(s, s') && Holds(s', Current(s)) && NobodyNoticed(s, s') && s'.log == s.log && s'.clones == s.clones
  {
    s' := s.(reg := Idle, cellCall := |s.wakers|);
    RegMoves(s, s');
  }

  /** A call that does not gets to look at the word. */
  lemma RegisterLooks(s: State)
    requires s.reg.Called? && !Hit(s)
    ensures RegComesTo(s, s.(reg := Look(s.word)))
  {
    var s1 := s.(reg := Load);
    RegMoves(s, s1);
    RegMoves(s1, s.(reg := Look(s.word)));
    RegThen(s, s1, s.(reg := Look(s.word)));
  }

  /** Publishing the clone made last and remembering it. */
  lemma PublishAndCache(s: State, s1: State, id: nat) returns (s': State)
    requires !s.reg.Idle? && s1 == RegStep(s) && s1 == Install(s, id).(word := Word(Current(s).vt, Registered))
    requires id < |s.clones| && s.clones[id] == Current(s) && s.data == Current(s).data
    ensures RegComesTo(s, s') && Holds(s', Current(s)) && NobodyNoticed(s, s') && s'.log == s.log && s'.clones == s.clones
  {
    s' := s1.(cache := Some(Current(s)), reg := Idle);
    RegMoves(s, s1);
    RegMoves(s1, s');
    RegThen(s, s1, s');
  }

  /** A look that finds the cell empty: the waker is cloned and stored. */
  lemma StoreInEmpty(s: State) returns (s': State)
    requires s.reg == Look(EMPTY) && s.word == EMPTY
    ensures RegComesTo(s, s') && Holds(s', Current(s)) && NobodyNoticed(s, s')
    ensures s'.log == s.log && s'.clones == s.clones + [Current(s)]
  {
    var s1 := s.(reg := NoopData);
    var s2 := Clone(s1).(data := Current(s).data, reg := NoopVt(|s.clones|));
    RegMoves(s, s1);
    RegMoves(s1, s2);
    RegThen(s, s1, s2);
    s' := PublishAndCache(s2, RegStep(s2), |s.clones|);
    RegThen(s, s2, s');
  }

  /** A look that finds another waker: the cell is locked and the old clone dropped. */
  lemma LockAndDrop(s: State, v: Word) returns (s': State)
    requires s.reg == Look(v) && s.word == v && v.tag == Registered && v.vt != NOOP && s.cell.Some?
    ensures RegComesTo(s, s') && s'.reg == Replace(v.vt) && s'.word == Word(v.vt, Registering) && NobodyNoticed(s, s')
    ensures s'.log == s.log + [Event(s.cell.value, Waker(v.vt, s.data), Dropped)] && s'.clones == s.clones
  {
    var s1 := TakeOut(s, RegOld).(word := Word(v.vt, Registering), reg := Won(v.vt, s.cell.value));
    var s2 := s1.(reg := DropOld(v.vt, s.data, s.cell.value));
    s' := Record(s2, s.cell.value, Waker(v.vt, s.data), Dropped).(reg := Replace(v.vt));
    RegMoves(s, s1);
    RegMoves(s1, s2);
    RegThen(s, s1, s2);
    RegMoves(s2, s');
    RegThen(s, s2, s');
  }

  lemma CloneAndPublish(s: State, vt: nat) returns (s': State)
    requires s.reg == Replace(vt) && s.word == Word(vt, Registering)
    ensures RegComesTo(s, s') && Holds(s', Current(s)) && NobodyNoticed(s, s')
    ensures s'.log == s.log && s'.clones == s.clones + [Current(s)]
  {
    var s1 := Clone(s).(data := Current(s).data, reg := Publish(vt, |s.clones|));
    RegMoves(s, s1);
    s' := PublishAndCache(s1, RegStep(s1), |s.clones|);
    RegThen(s, s1, s');
  }

  lemma ReplaceStored(s: State) returns (s': State)
    requires s.reg == Look(s.word) && s.word.tag == Registered && s.word.vt != NOOP && s.cell.Some?
    ensures RegComesTo(s, s') && Holds(s', Current(s)) && NobodyNoticed(s, s')
    ensures s'.log == s.log + [Event(s.cell.value, Waker(s.word.vt, s.data), Dropped)] && s'.clones == s.clones + [Current(s)]
  {
    var s1 := LockAndDrop(s, s.word);
    s' := CloneAndPublish(s1, s.word.vt);
    RegThen(s, s1, s');
  }

  /** A look that finds a take under way: the waker of the call is woken at once, and nothing is stored. */
  lemma WakeAtOnce(s: State) returns (s': State)
    requires s.reg == Look(s.word) && s.word.tag == Waking
    ensures RegComesTo(s, s') && s'.woken == s.woken + {|s.wakers|}
    ensures s' == s.(reg := Idle, woken := s'.woken, service := s'.service, served := s'.served)
  {
    s' := RegStep(s);
    RegMoves(s, s');
  }

  /** What is in the cell when a call begins: nothing, a waker, or a take that is not through. */
  lemma CellAtCall(s: State)
    requires Inv(s) && s.reg.Called?
    ensures s.word == EMPTY || s.word.tag == Waking || (s.word.tag == Registered && s.word.vt != NOOP && s.cell.Some?)
  {
  }

  /** The clone a call drops: what it finds stored, if that is another waker. */
  function DroppedBy(s: State): seq<Event> {
    if s.cell.Some? && !Hit(s) then [Event(s.cell.value, Waker(s.word.vt, s.data), Dropped)] else []
  }

  /** From any reachable state: a call that nobody interferes with ends with its waker stored, having dropped the
      one stored before if that was another, and having woken nobody; unless a take is under way, when it wakes
      its own waker and leaves the cell alone. */
  lemma RegisterAlone(steps: seq<Step>, s: State, w: Waker, s0: State) returns (s': State)
    requires Runs(Initial(), steps, s) && Enabled(s, Register(w)) && s0 == Do(s, Register(w))
    ensures RegComesTo(s0, s') && s'.reg.Idle?
    ensures s.word.tag != Waking ==>
      Holds(s', w) && NobodyNoticed(s0, s') && s'.log == s.log + DroppedBy(s0)
      && s'.clones == if Hit(s0) then s.clones else s.clones + [w]
    ensures s.word.tag == Waking ==>
      s'.woken == s.woken + {|s0.wakers|} && s'.word == s.word && s'.data == s.data && s'.cell == s.cell && s'.log == s.log && s'.clones == s.clones
  {
    ReachableInv(steps, s);
    StepKeeps(s, Register(w));
    CellAtCall(s0);
    s' := CallAlone(s0);
  }

  lemma CallAlone(s: State) returns (s': State)
    requires Inv(s) && s.reg.Called?
    requires s.word == EMPTY || s.word.tag == Waking || (s.word.tag == Registered && s.word.vt != NOOP && s.cell.Some?)
    ensures RegComesTo(s, s') && s'.reg.Idle?
    ensures s.word.tag != Waking ==>
      Holds(s', Current(s)) && NobodyNoticed(s, s') && s'.log == s.log + DroppedBy(s)
      && s'.clones == if Hit(s) then s.clones else s.clones + [Current(s)]
    ensures s.word.tag == Waking ==>
      s'.woken == s.woken + {|s.wakers|} && s'.word == s.word && s'.data == s.data && s'.cell == s.cell && s'.log == s.log && s'.clones == s.clones
  {
    if Hit(s) {
      s' := RegisterHit(s);
    } else {
      var s1 := s.(reg := Look(s.word));
      RegisterLooks(s);
      if s.word == EMPTY {
        s' := StoreInEmpty(s1);
      } else if s.word.tag == Waking {
        s' := WakeAtOnce(s1);
      } else {
        s' := ReplaceStored(s1);
      }
      RegThen(s, s1, s');
    }
  }

  // ---------------------------------------------------------------------------------------
  // No wake without a take
  // ---------------------------------------------------------------------------------------

  /** No take is under way, and the registrar has met none. */
  predicate Calm(s: State) {
    && s.word.tag != Waking && !(s.reg.Look? && s.reg.seen.tag == Waking)
    && !s.reg.FailVt? && !s.reg.FailData? && !s.reg.FailWake?
  }

  lemma CalmReg(s: State, s': State)
    requires Inv(s) && Calm(s) && !s.reg.Idle? && s' == RegStep(s)
    ensures Calm(s') && s'.woken == s.woken && s'.service == s.service
  {
    match s.reg {
      case Called =>
      case Load =>
      case Look(_) =>
      case NoopData =>
      case NoopVt(_) =>
      case Won(_, _) =>
      case DropOld(_, _, _) =>
      case Replace(_) =>
      case Publish(_, _) =>
      case Cache =>
    }
  }

  /** However often wakers are registered, and whatever takers do that are through with the cell or have yet to
      look at it: unless some taker reaches into the cell, no waker is woken. */
  lemma {:induction false} NoWakeWithoutATake(s: State, steps: seq<Step>, s': State)
    requires Inv(s) && Calm(s) && Runs(s, steps, s') && forall i :: 0 <= i < |steps| ==> !steps[i].Take?
    ensures Calm(s') && s'.woken == s.woken && s'.service == s.service
    decreases |steps|
  {
    if steps != [] {
      var s1 := Do(s, steps[0]);
      StepKeeps(s, steps[0]);
      if steps[0].Reg? {
        CalmReg(s, s1);
      }
      NoWakeWithoutATake(s1, steps[1..], s');
    }
  }

  // ---------------------------------------------------------------------------------------
  // Take
  // ---------------------------------------------------------------------------------------

  /** `n` accesses of one taker, nobody else moving. */
  ghost predicate Takes(s: State, t: Tid, n: nat, s': State)
    decreases n
  {
    if n == 0 then s' == s else Enabled(s, Take(t)) && Takes(TakeStep(s, t), t, n - 1, s')
  }

  ghost predicate TakeComesTo(s: State, t: Tid, s': State) {
    exists n: nat :: Takes(s, t, n, s')
  }

  lemma TakeMoves(s: State, t: Tid, s': State)
    requires Enabled(s, Take(t)) && s' == TakeStep(s, t)
    ensures TakeComesTo(s, t, s')
  {
    assert Takes(s', t, 0, s');
    assert Takes(s, t, 1, s');
  }

  lemma {:induction false} TakesAgain(s: State, t: Tid, n: nat, s': State, m: nat, s'': State)
    requires Takes(s, t, n, s') && Takes(s', t, m, s'')
    ensures Takes(s, t, n + m, s'')
    decreases n
  {
    if n > 0 {
      TakesAgain(TakeStep(s, t), t, n - 1, s', m, s'');
    }
  }

  lemma TakeThen(s: State, t: Tid, s': State, s'': State)
    requires TakeComesTo(s, t, s') && TakeComesTo(s', t, s'')
    ensures TakeComesTo(s, t, s'')
  {
    var n: nat :| Takes(s, t, n, s');
    var m: nat :| Takes(s', t, m, s'');
    TakesAgain(s, t, n, s', m, s'');
  }

  /** A take that has seen a stored waker wins the cell and empties it. */
  lemma EmptyTheCell(s: State, t: Tid, aim: nat) returns (s': State)
    requires t in s.takers && s.takers[t] == Peek(aim, s.word) && s.word.tag == Registered && s.cell.Some?
    ensures TakeComesTo(s, t, s') && t in s'.takers && s'.takers[t] == Holding(aim, Waker(s.word.vt, s.data), s.cell.value)
    ensures s'.word == EMPTY && s'.data == NULL && s'.cell.None? && s'.busy.None? && s'.log == s.log && s'.woken == s.woken && s'.reg == s.reg
  {
    var s1 := TakeStep(s, t);
    var s2 := TakeStep(s1, t);
    var s3 := TakeStep(s2, t);
    s' := TakeStep(s3, t);
    TakeMoves(s, t, s1);
    TakeMoves(s1, t, s2);
    TakeThen(s, t, s1, s2);
    TakeMoves(s2, t, s3);
    TakeThen(s, t, s2, s3);
    TakeMoves(s3, t, s');
    TakeThen(s, t, s3, s');
  }

  /** A take on its own hands out the waker in the cell, whichever that is, and leaves the cell empty; if there is
      none it comes back with nothing and changes nothing, except that it leaves its wake to a registrar that
      has the cell locked. */
  lemma TakeAlone(steps: seq<Step>, s: State, t: Tid, s0: State) returns (s': State)
    requires Runs(Initial(), steps, s) && Enabled(s, Start(t)) && s0 == Do(s, Start(t))
    ensures TakeComesTo(s0, t, s') && t in s'.takers
    ensures s.cell.Some? ==>
      && s.cell.value < |s.clones| && s'.takers[t] == Holding(ReturnedCalls(s), s.clones[s.cell.value], s.cell.value)
      && s'.word == EMPTY && s'.data == NULL && s'.cell.None? && s'.log == s.log && s'.woken == s.woken
    ensures s.cell.None? ==> s'.takers[t].Done?
    ensures s.cell.None? && s.word.tag != Registering ==> s' == SetTaker(s, t, Done(ReturnedCalls(s)))
    ensures s.word.tag == Registering ==> s'.word == Word(s.word.vt, Waking) && s'.data == s.data && s'.log == s.log && s'.woken == s.woken
  {
    ReachableInv(steps, s);
    CellIsExact(s);
    s' := StartedTake(s, t, s0);
  }

  lemma CellIsExact(s: State)
    requires Inv(s)
    ensures s.cell.Some? <==> s.word.tag == Registered
    ensures s.cell.Some? ==> s.cell.value < |s.clones| && Waker(s.word.vt, s.data) == s.clones[s.cell.value]
  {
  }

  lemma StartedTake(s: State, t: Tid, s0: State) returns (s': State)
    requires (s.cell.Some? <==> s.word.tag == Registered) && Enabled(s, Start(t)) && s0 == Do(s, Start(t))
    ensures TakeComesTo(s0, t, s') && t in s'.takers
    ensures s.cell.Some? ==>
      && s'.takers[t] == Holding(ReturnedCalls(s), Waker(s.word.vt, s.data), s.cell.value)
      && s'.word == EMPTY && s'.data == NULL && s'.cell.None? && s'.log == s.log && s'.woken == s.woken
    ensures s.cell.None? ==> s'.takers[t].Done?
    ensures s.cell.None? && s.word.tag != Registering ==> s' == SetTaker(s, t, Done(ReturnedCalls(s)))
    ensures s.word.tag == Registering ==> s'.word == Word(s.word.vt, Waking) && s'.data == s.data && s'.log == s.log && s'.woken == s.woken
  {
    var aim := ReturnedCalls(s);
    var s1 := SetTaker(s, t, Peek(aim, s.word));
    assert s0.takers[t := Peek(aim, s.word)] == s1.takers;
    TakeMoves(s0, t, s1);
    if s.cell.Some? {
      s' := EmptyTheCell(s1, t, aim);
    } else {
      s' := TakeStep(s1, t);
      assert s1.takers[t := Done(aim)] == s.takers[t := Done(aim)];
      TakeMoves(s1, t, s');
    }
    TakeThen(s0, t, s1, s');
  }

  /** Register, then take: the very waker comes out. */
  lemma TakeReturnsTheRegistered(steps: seq<Step>, s: State, w: Waker, t: Tid) returns (s': State, s'': State)
    requires Runs(Initial(), steps, s) && Enabled(s, Register(w)) && s.word.tag != Waking && Enabled(s, Start(t))
    ensures RegComesTo(Do(s, Register(w)), s') && Enabled(s', Start(t)) && TakeComesTo(Do(s', Start(t)), t, s'')
    ensures t in s''.takers && s''.takers[t].Holding? && s''.takers[t].waker == w && s''.word == EMPTY
  {
    s' := RegisterAlone(steps, s, w, Do(s, Register(w)));
    s'' := StartedTake(s', t, Do(s', Start(t)));
  }
}
