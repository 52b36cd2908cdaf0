/** What a wake through the token and a deactivation come to: a wake reaches the header unless the owner has
    begun to deactivate, and a deactivation returns once no guard is left. */
module WakeTokenCalls {
  import opened WakeToken

  // ---------------------------------------------------------------------------------------
  // Over every run
  // ---------------------------------------------------------------------------------------

  /** At some moment of the run the waker uses the header. */
  ghost predicate Visits(s: State, steps: seq<Step>, t: Tid)
    decreases |steps|
  {
    || (t in s.wakers && s.wakers[t].Deref?)
    || (steps != [] && Enabled(s, steps[0]) && Visits(Do(s, steps[0]), steps[1..], t))
  }

  /** The waker has yet to come to the header. */
  predicate OnItsWay(pc: WakePc) {
    pc.Begin? || pc.Acquire? || pc.Guarded? || pc.Point? || pc.Deref?
  }

  lemma {:induction false} OwnerLeavesOnce(s: State, steps: seq<Step>, s': State)
    requires Runs(s, steps, s') && s'.owner.Live?
    ensures s.owner.Live?
    decreases |steps|
  {
    if steps != [] {
      OwnerLeavesOnce(Do(s, steps[0]), steps[1..], s');
    }
  }

  lemma LiveTokenLetsThrough(s: State, t: Tid, s': State)
    requires Inv(s) && s.owner.Live? && t in s.wakers && OnItsWay(s.wakers[t]) && !s.wakers[t].Deref? && s' == DoWake(s, t)
    ensures t in s'.wakers && OnItsWay(s'.wakers[t])
  {
    assert s.word % 2 == 1 && s.header;
  }

  lemma {:induction false} ReachesTheHeader(s: State, steps: seq<Step>, s': State, t: Tid)
    requires Inv(s) && t in s.wakers && OnItsWay(s.wakers[t]) && Wake(t) !in steps && Runs(s, steps, s')
    requires s'.owner.Live? && t in s'.wakers && s'.wakers[t].Done?
    ensures Visits(s, steps, t)
    decreases |steps|
  {
    OwnerLeavesOnce(s, steps, s');
    if !s.wakers[t].Deref? {
      var s1 := Do(s, steps[0]);
      StepKeeps(s, steps[0]);
      if steps[0] == WakeStep(t) {
        LiveTokenLetsThrough(s, t, s1);
      }
      ReachesTheHeader(s1, steps[1..], s', t);
    }
  }

  /** In every run: a wake that is over, while the owner has not begun to deactivate, has used the header. */
  lemma WakeReachesTheHeader(before: seq<Step>, s: State, t: Tid, steps: seq<Step>, s': State)
    requires Runs(Initial(), before, s) && Enabled(s, Wake(t)) && Wake(t) !in steps && Runs(Do(s, Wake(t)), steps, s')
    requires s'.owner.Live? && t in s'.wakers && s'.wakers[t].Done?
    ensures Visits(Do(s, Wake(t)), steps, t)
  {
    ReachableInv(before, s);
    StepKeeps(s, Wake(t));
    ReachesTheHeader(Do(s, Wake(t)), steps, s', t);
  }

  /** The waker has not been let in. */
  predicate Outside(pc: WakePc) {
    pc.Begin? || pc.Acquire? || pc.Done?
  }

  /** In every run: once the owner has begun to deactivate, no waker that was outside gets in. */
  lemma {:induction false} DeadTokenLetsNobodyIn(s: State, steps: seq<Step>, s': State, t: Tid)
    requires Inv(s) && !s.owner.Live? && (t in s.wakers ==> Outside(s.wakers[t])) && Runs(s, steps, s')
    ensures t in s'.wakers ==> Outside(s'.wakers[t])
    decreases |steps|
  {
    if steps != [] {
      var s1 := Do(s, steps[0]);
      StepKeeps(s, steps[0]);
      if t in s.wakers {
        assert WakerOk(t, s.wakers[t], s.guards);
      }
      DeadTokenLetsNobodyIn(s1, steps[1..], s', t);
    }
  }

  // ---------------------------------------------------------------------------------------
  // Calls on their own
  // ---------------------------------------------------------------------------------------

  /** `n` accesses of one waker, nobody else moving. */
  ghost predicate Wakes(s: State, t: Tid, n: nat, s': State)
    decreases n
  {
    if n == 0 then s' == s else Enabled(s, WakeStep(t)) && Wakes(DoWake(s, t), t, n - 1, s')
  }

  lemma OneWake(s: State, t: Tid, s': State)
    requires Enabled(s, WakeStep(t)) && s' == DoWake(s, t)
    ensures Wakes(s, t, 1, s')
  {
    assert Wakes(s', t, 0, s');
  }

  lemma {:induction false} WakesAgain(s: State, t: Tid, n: nat, s': State, m: nat, s'': State)
    requires Wakes(s, t, n, s') && Wakes(s', t, m, s'')
    ensures Wakes(s, t, n + m, s'')
    decreases n
  {
    if n > 0 {
      WakesAgain(DoWake(s, t), t, n - 1, s', m, s'');
    }
  }

  /** A guard in the hands of one more waker. */
  function Guarding(s: State, t: Tid, pc: WakePc): State {
    SetWaker(s, t, pc).(word := s.word + UNIT, guards := s.guards + {t})
  }

  lemma TakeGuard(s: State, t: Tid)
    requires s.word % 2 == 1 && s.word + UNIT < WORD && |s.guards| < GUARD_LIMIT && t in s.wakers && s.wakers[t].Begin?
    ensures Wakes(s, t, 2, Guarding(s, t, Guarded))
  {
    var s1 := DoWake(s, t);
    var s2 := DoWake(s1, t);
    assert s2.wakers == s.wakers[t := Guarded];
    OneWake(s, t, s1);
    OneWake(s1, t, s2);
    WakesAgain(s, t, 1, s1, 1, s2);
  }

  lemma FindHeader(s: State, t: Tid)
    requires s.word % 2 == 1 && s.header && t in s.wakers && s.wakers[t].Guarded?
    ensures Wakes(s, t, 2, SetWaker(s, t, Deref))
  {
    var s1 := DoWake(s, t);
    var s2 := DoWake(s1, t);
    assert s2.wakers == s.wakers[t := Deref];
    OneWake(s, t, s1);
    OneWake(s1, t, s2);
    WakesAgain(s, t, 1, s1, 1, s2);
  }

  lemma GiveGuardBack(s: State, t: Tid)
    requires s.word % 2 == 1 && UNIT < s.word < WORD && t in s.wakers && s.wakers[t].Deref?
    ensures Wakes(s, t, 2, SetWaker(s, t, Done).(word := s.word - UNIT, guards := s.guards - {t}))
  {
    var s1 := DoWake(s, t);
    var s2 := DoWake(s1, t);
    assert s2.wakers == s.wakers[t := Done];
    OneWake(s, t, s1);
    OneWake(s1, t, s2);
    WakesAgain(s, t, 1, s1, 1, s2);
  }

  /** A wake on its own, with the token alive: it comes to the header, and then leaves the token as it was. */
  lemma WakeAlone(s: State, t: Tid, s0: State)
    requires Inv(s) && s.owner.Live? && |s.guards| < GUARD_LIMIT && Enabled(s, Wake(t)) && s0 == Do(s, Wake(t))
    ensures Wakes(s0, t, 4, Guarding(s, t, Deref)) && Wakes(s0, t, 6, SetWaker(s, t, Done))
  {
    assert t in s.wakers ==> WakerOk(t, s.wakers[t], s.guards);
    assert t !in s.guards;
    FreshWake(s, t, s0);
  }

  lemma FreshWake(s: State, t: Tid, s0: State)
    requires s.word % 2 == 1 && s.word + UNIT < WORD && |s.guards| < GUARD_LIMIT && s.header && t !in s.guards && s0 == SetWaker(s, t, Begin)
    ensures Wakes(s0, t, 4, Guarding(s, t, Deref)) && Wakes(s0, t, 6, SetWaker(s, t, Done))
  {
    var s2 := Guarding(s, t, Guarded);
    TakeGuard(s0, t);
    assert s0.wakers[t := Guarded] == s2.wakers;
    FindHeader(s2, t);
    var s4 := Guarding(s, t, Deref);
    assert s2.wakers[t := Deref] == s4.wakers;
    WakesAgain(s0, t, 2, s2, 2, s4);
    GiveGuardBack(s4, t);
    assert s4.wakers[t := Done] == s.wakers[t := Done] && s4.guards - {t} == s.guards;
    WakesAgain(s0, t, 4, s4, 2, SetWaker(s, t, Done));
  }

  /** A wake on its own, with the token dead, is over after one look. */
  lemma DeadWakeAlone(s: State, t: Tid, s0: State)
    requires Inv(s) && !s.owner.Live? && Enabled(s, Wake(t)) && s0 == Do(s, Wake(t))
    ensures Wakes(s0, t, 1, SetWaker(s, t, Done))
  {
    assert s.word % 2 == 0;
    assert s0.wakers[t := Done] == s.wakers[t := Done];
    OneWake(s0, t, SetWaker(s, t, Done));
  }

  /** `n` accesses of the owner, nobody else moving. */
  ghost predicate Owns(s: State, n: nat, s': State)
    decreases n
  {
    if n == 0 then s' == s else Enabled(s, OwnerStep) && Owns(DoOwner(s), n - 1, s')
  }

  lemma OneOwn(s: State, s': State)
    requires Enabled(s, OwnerStep) && s' == DoOwner(s)
    ensures Owns(s, 1, s')
  {
    assert Owns(s', 0, s');
  }

  lemma {:induction false} OwnsAgain(s: State, n: nat, s': State, m: nat, s'': State)
    requires Owns(s, n, s') && Owns(s', m, s'')
    ensures Owns(s, n + m, s'')
    decreases n
  {
    if n > 0 {
      OwnsAgain(DoOwner(s), n - 1, s', m, s'');
    }
  }

  /** The owner, moving alone, returns from the deactivation in three accesses at most. */
  ghost predicate Returns(s: State) {
    exists n: nat :: n <= 3 && Owns(s, n, s.(owner := Returned, header := false))
  }

  /** With no guard left, an owner that is awake returns from the deactivation in three accesses at most. */
  lemma ReturnsAlone(s: State)
    requires Inv(s) && s.guards == {} && (s.owner.Load? || s.owner.Wait? || s.owner.Unbind?)
    ensures Returns(s)
  {
    assert s.word == 0;
    var end, unbind := s.(owner := Returned, header := false), s.(owner := Unbind);
    OneOwn(unbind, end);
    if s.owner.Wait? {
      OneOwn(s, s.(owner := Load(0)));
      OneOwn(s.(owner := Load(0)), unbind);
      OwnsAgain(s, 1, s.(owner := Load(0)), 1, unbind);
      OwnsAgain(s, 2, unbind, 1, end);
    } else if s.owner.Load? {
      OneOwn(s, unbind);
      OwnsAgain(s, 1, unbind, 1, end);
    }
  }

  /** A deactivation that finds no guard returns on its own. */
  lemma DeactivateAlone(s: State)
    requires Inv(s) && s.owner.Live? && s.guards == {}
    ensures Returns(Do(s, Deactivate))
  {
    StepKeeps(s, Deactivate);
    ReturnsAlone(Do(s, Deactivate));
  }

  /** While a guard is left, an owner on its own spins and goes to sleep. */
  lemma {:induction false} SleepsAlone(s: State)
    requires s.word != 0 && s.owner.Load?
    ensures exists n: nat :: Owns(s, n, s.(owner := Asleep))
    decreases SPIN_LIMIT + 1 - s.owner.spins
  {
    var s1 := DoOwner(s);
    OneOwn(s, s1);
    if s.owner.spins <= SPIN_LIMIT {
      SleepsAlone(s1);
      var n: nat :| Owns(s1, n, s1.(owner := Asleep));
      OwnsAgain(s, 1, s1, n, s.(owner := Asleep));
    } else {
      OneOwn(s1, s.(owner := Asleep));
      OwnsAgain(s, 1, s1, 1, s.(owner := Asleep));
    }
  }

  /** The last guard given back wakes a sleeping owner, and then the deactivation returns. */
  lemma LastGuardReleasesTheOwner(s: State, t: Tid)
    requires Inv(s) && s.owner.Asleep? && s.guards == {t} && t in s.wakers && s.wakers[t].Unguard?
    ensures Wakes(s, t, 2, SetWaker(s, t, Done).(word := 0, guards := {}, owner := Load(0)))
    ensures Returns(SetWaker(s, t, Done).(word := 0, guards := {}, owner := Load(0)))
  {
    assert |s.guards| == 1 && s.word == UNIT;
    var s1 := DoWake(s, t);
    var s2 := DoWake(s1, t);
    assert s2.wakers == s.wakers[t := Done] && s1.guards == {};
    OneWake(s, t, s1);
    OneWake(s1, t, s2);
    WakesAgain(s, t, 1, s1, 1, s2);
    StepKeeps(s, WakeStep(t));
    StepKeeps(s1, WakeStep(t));
    ReturnsAlone(s2);
  }
}
