/** What the calls of the reader-writer lock come to: where a thread stands when a call is over, whatever the
    others do meanwhile, and what it gets if the others do nothing. */
module RwLockCalls {
  import opened Prelude
  import opened Words
  import opened RwLock

  function Mover(step: Step): Tid {
    step.t
  }

  /** Thread `t` only goes on with the call it is in. */
  ghost predicate GoesOn(t: Tid, steps: seq<Step>) {
    forall i :: 0 <= i < |steps| && Mover(steps[i]) == t ==> steps[i].Go?
  }

  lemma OthersLeaveIt(s: State, step: Step, t: Tid)
    requires Enabled(s, step) && Mover(step) != t
    ensures At(Do(s, step), t) == At(s, t)
  {
  }

  // ---------------------------------------------------------------------------------------
  // Where calls end
  // ---------------------------------------------------------------------------------------

  datatype Kind = ToRead | ToWrite | ToRelease | ToDowngrade

  /** The places a call passes through, the last ones included. */
  predicate Within(kind: Kind, pc: Pc) {
    match kind
    case ToRead =>
      || pc.TryRead? || pc.TryReadCas? || pc.ReadLoad? || pc.ReadCas? || pc.ReadFix? || pc.ReadQueue? || pc.ReadMark?
      || pc.ReadPending? || pc.Reading? || pc.Idle?
    case ToWrite =>
      || pc.TryWrite? || pc.WriteLoad? || pc.WriteCas? || pc.WriteFix? || pc.WriteQueue? || pc.WriteMark?
      || pc.WritePending? || pc.Writing? || pc.Idle?
    case ToRelease => pc.DropCas? || pc.DropStore? || pc.Idle?
    case ToDowngrade => pc.DownLoad? || pc.DownCas? || pc.Reading?
  }

  lemma GoStaysWithin(s: State, t: Tid, choice: bool, kind: Kind)
    requires Enabled(s, Go(t, choice)) && Within(kind, At(s, t))
    ensures Within(kind, At(Do(s, Go(t, choice)), t))
  {
    match kind {
      case ToRead =>
      case ToWrite =>
      case ToRelease =>
      case ToDowngrade =>
    }
  }

  lemma {:induction false} CallStaysWithin(s: State, t: Tid, kind: Kind, steps: seq<Step>, s': State)
    requires Within(kind, At(s, t)) && Runs(s, steps, s') && GoesOn(t, steps)
    ensures Within(kind, At(s', t))
    decreases |steps|
  {
    if steps != [] {
      var step := steps[0];
      if Mover(step) == t {
        GoStaysWithin(s, t, step.choice, kind);
      } else {
        OthersLeaveIt(s, step, t);
      }
      CallStaysWithin(Do(s, step), t, kind, steps[1..], s');
    }
  }

  /** Whatever the other threads do: a call to read ends with a read guard or with nothing, one to write with a
      write guard or with nothing, dropping the write guard with nothing, a downgrade with a read guard. The
      word counts exactly that. */
  lemma CallsEnd(data: int, steps: seq<Step>, s: State, t: Tid, kind: Kind, more: seq<Step>, s': State)
    requires Runs(Initial(data), steps, s) && Within(kind, At(s, t)) && Runs(s, more, s') && GoesOn(t, more) && Resting(At(s', t))
    ensures kind.ToRead? ==> At(s', t).Reading? || At(s', t).Idle?
    ensures kind.ToWrite? ==> At(s', t).Writing? || At(s', t).Idle?
    ensures kind.ToRelease? ==> At(s', t).Idle?
    ensures kind.ToDowngrade? ==> At(s', t).Reading?
    ensures At(s', t).Reading? <==> t in ReadersOf(s')
    ensures At(s', t).Writing? <==> t in WritersOf(s')
  {
    CallStaysWithin(s, t, kind, more, s');
  }

  // ---------------------------------------------------------------------------------------
  // Guards and the data
  // ---------------------------------------------------------------------------------------

  predicate HoldsGuard(pc: Pc) {
    HoldsRead(pc) || HoldsWrite(pc)
  }

  lemma GuardsExclude(s: State, t: Tid, u: Tid)
    requires Inv(s) && HoldsGuard(At(s, t)) && u != t
    ensures !HoldsWrite(At(s, u))
  {
    assert ThreadOk(t, s.threads[t], s.writer, s.readers, s.data);
    assert u in s.threads ==> ThreadOk(u, s.threads[u], s.writer, s.readers, s.data);
    assert t in s.readers ==> s.readers != {};
  }

  /** Who holds a guard keeps every other thread from changing the data. */
  lemma GuardStopsWriters(s: State, step: Step, t: Tid)
    requires Inv(s) && HoldsGuard(At(s, t)) && Enabled(s, step) && Mover(step) != t
    ensures Do(s, step).data == s.data
  {
    GuardsExclude(s, t, Mover(step));
  }

  lemma {:induction false} DowngradeHolds(s: State, t: Tid, steps: seq<Step>, s': State)
    requires Inv(s) && Within(ToDowngrade, At(s, t)) && Runs(s, steps, s') && GoesOn(t, steps)
    ensures s'.data == s.data
    decreases |steps|
  {
    if steps != [] {
      var step := steps[0];
      StepKeeps(s, step);
      if Mover(step) == t {
        GoStaysWithin(s, t, step.choice, ToDowngrade);
      } else {
        OthersLeaveIt(s, step, t);
        GuardStopsWriters(s, step, t);
      }
      DowngradeHolds(Do(s, step), t, steps[1..], s');
    }
  }

  /** A writer that downgrades holds a guard at every moment until it has the read guard, and nobody changes the
      data from then on until it lets go; when the call is over the reader field counts it. */
  lemma DowngradeKeepsTheGuard(data: int, steps: seq<Step>, s: State, t: Tid, more: seq<Step>, s': State)
    requires Runs(Initial(data), steps, s) && At(s, t).Writing?
    requires Runs(Do(s, Downgrade(t)), more, s') && GoesOn(t, more)
    ensures HoldsGuard(At(s', t)) && s'.data == s.data
    ensures Resting(At(s', t)) ==> At(s', t) == Reading(s.data) && t in ReadersOf(s') && ReaderField(s'.word) == |ReadersOf(s')| >= 1
  {
    InitialInv(data);
    RunKeeps(Initial(data), steps, s);
    StepKeeps(s, Downgrade(t));
    var s1 := Do(s, Downgrade(t));
    CallStaysWithin(s1, t, ToDowngrade, more, s');
    DowngradeHolds(s1, t, more, s');
    RunKeeps(s1, more, s');
    GuardsAreNamed(s');
    assert ThreadOk(t, s'.threads[t], s'.writer, s'.readers, s'.data);
    assert t in s'.readers ==> |s'.readers| >= 1;
  }

  /** The value assigned last, or the initial one. */
  function LastAssigned(steps: seq<Step>, data: int): int {
    if steps == [] then data
    else if steps[|steps| - 1].Assign? then steps[|steps| - 1].value
    else LastAssigned(steps[..|steps| - 1], data)
  }

  lemma {:induction false} DataIsLastAssigned(s: State, steps: seq<Step>, s': State)
    requires Runs(s, steps, s')
    ensures s'.data == LastAssigned(steps, s.data)
    decreases |steps|
  {
    if steps != [] {
      var s1 := Do(s, steps[0]);
      DataIsLastAssigned(s1, steps[1..], s');
      LastOfTail(steps, s.data);
    }
  }

  lemma {:induction false} LastOfTail(steps: seq<Step>, data: int)
    requires steps != []
    ensures LastAssigned(steps, data) == LastAssigned(steps[1..], if steps[0].Assign? then steps[0].value else data)
    decreases |steps|
  {
    if |steps| > 1 && !steps[|steps| - 1].Assign? {
      LastOfTail(steps[..|steps| - 1], data);
      assert steps[..|steps| - 1][1..] == steps[1..][..|steps| - 2];
    }
  }

  /** Every reader sees what the last writer left. */
  lemma ReadersSeeTheLastWrite(data: int, steps: seq<Step>, s: State, t: Tid)
    requires Runs(Initial(data), steps, s) && At(s, t).Reading?
    ensures At(s, t).snap == LastAssigned(steps, data)
  {
    ReadersSeeOneValue(data, steps, s, t);
    DataIsLastAssigned(Initial(data), steps, s);
  }

  // ---------------------------------------------------------------------------------------
  // Calls on their own
  // ---------------------------------------------------------------------------------------

  /** Up to `n` accesses of one thread, nobody else moving. */
  function Alone(s: State, t: Tid, choice: bool, n: nat): (s': State)
    requires t in s.threads
    ensures t in s'.threads
    decreases n
  {
    if n == 0 || Resting(At(s, t)) then s else Alone(DoGo(s, t, choice), t, choice, n - 1)
  }

  predicate OpenToReaders(word: nat) {
    !HasWriter(word) && !IsContended(word) && ReaderField(word) != MAX_READERS
  }

  /** One more reader, one fewer writer and so on; the rest of the word as it was. */
  predicate WordIs(word: nat, writer: bool, contended: bool, readers: nat) {
    HasWriter(word) == writer && IsContended(word) == contended && ReaderField(word) == readers
  }

  lemma OneMoreReader(word: nat)
    requires word < WORD && ReaderField(word) != MAX_READERS
    ensures var w := (word + UNIT) % WORD; w == word + UNIT && WordIs(w, HasWriter(word), IsContended(word), ReaderField(word) + 1)
  {
  }

  /** Only `t` moved, and neither the data nor the write guard changed hands. */
  ghost predicate OnlyMoves(s: State, t: Tid, s': State) {
    t in s'.threads && s'.threads == s.threads[t := s'.threads[t]] && s'.data == s.data
  }

  /** `try_read` on its own succeeds exactly if there is no writer, nobody waits and the field has room. */
  lemma TryReadAlone(s: State, t: Tid, s': State)
    requires s.word < WORD && At(s, t).Idle? && s' == Alone(Do(s, Call(t, TryRead)), t, false, 2)
    ensures OnlyMoves(s, t, s') && s'.writer == s.writer
    ensures OpenToReaders(s.word) ==>
      At(s', t) == Reading(s.data) && WordIs(s'.word, false, false, ReaderField(s.word) + 1) && s'.readers == s.readers + {t}
    ensures !OpenToReaders(s.word) ==> At(s', t).Idle? && s'.word == s.word && s'.readers == s.readers
  {
    var s1 := Do(s, Call(t, TryRead));
    var s2 := DoGo(s1, t, false);
    assert Alone(s1, t, false, 2) == Alone(s2, t, false, 1);
    if OpenToReaders(s.word) {
      OneMoreReader(s.word);
      assert s2.threads[t] == TryReadCas(s.word);
      assert Alone(s2, t, false, 1) == DoGo(s2, t, false);
    } else {
      assert s2.threads[t] == Idle;
    }
  }

  /** `try_write` on its own succeeds exactly if the word is 0. */
  lemma TryWriteAlone(s: State, t: Tid, s': State)
    requires At(s, t).Idle? && s' == Alone(Do(s, Call(t, TryWrite)), t, false, 1)
    ensures OnlyMoves(s, t, s') && s'.readers == s.readers
    ensures s.word == 0 ==> At(s', t).Writing? && WordIs(s'.word, true, false, 0) && s'.writer == Some(t)
    ensures s.word != 0 ==> At(s', t).Idle? && s'.word == s.word && s'.writer == s.writer
  {
  }

  /** The two accesses by which a read future is counted in. */
  lemma ReadEnters(s: State, t: Tid, woken: bool, s': State)
    requires s.word < WORD && At(s, t).Idle? && !HasWriter(s.word) && ReaderField(s.word) != MAX_READERS && (woken || !IsContended(s.word))
    requires s' == Alone(Do(s, Call(t, ReadLoad)), t, woken, 2)
    ensures OnlyMoves(s, t, s') && At(s', t) == (if woken then ReadFix(s.data) else Reading(s.data))
    ensures s'.word == s.word + UNIT && s'.readers == s.readers + {t} && s'.writer == s.writer
  {
    var s1 := Do(s, Call(t, ReadLoad));
    var s2 := DoGo(s1, t, woken);
    assert s2.threads[t] == ReadCas(s.word, woken);
    OneMoreReader(s.word);
    assert Alone(s1, t, woken, 2) == Alone(s2, t, woken, 1) == DoGo(s2, t, woken);
  }

  lemma {:induction false} AloneAgain(s: State, t: Tid, choice: bool, n: nat, m: nat)
    requires t in s.threads
    ensures Alone(s, t, choice, n + m) == Alone(Alone(s, t, choice, n), t, choice, m)
    decreases n
  {
    if n > 0 && !Resting(At(s, t)) {
      AloneAgain(DoGo(s, t, choice), t, choice, n - 1, m);
    }
  }

  /** A read future on its own: not queued, it gets its guard if `try_read` would; woken, also if others wait. */
  lemma ReadAlone(s: State, t: Tid, woken: bool, s': State)
    requires s.word < WORD && At(s, t).Idle? && !HasWriter(s.word) && ReaderField(s.word) != MAX_READERS && (woken || !IsContended(s.word))
    requires s' == Alone(Do(s, Call(t, ReadLoad)), t, woken, 3)
    ensures At(s', t) == Reading(s.data) && !HasWriter(s'.word) && ReaderField(s'.word) == ReaderField(s.word) + 1
    ensures s'.readers == s.readers + {t} && s'.data == s.data && s'.writer == s.writer
  {
    var s2 := Alone(Do(s, Call(t, ReadLoad)), t, woken, 2);
    ReadEnters(s, t, woken, s2);
    OneMoreReader(s.word);
    AloneAgain(Do(s, Call(t, ReadLoad)), t, woken, 2, 1);
    if woken {
      ContendedIsApart(s2.word, woken);
      assert Alone(s2, t, woken, 1) == DoGo(s2, t, woken);
    }
  }

  /** A read future that finds a writer, or others waiting before it, is left pending without a guard. If
      it joins the queue just now (`joins`) the contended bit is set; nothing else changes. */
  lemma ReadWaits(s: State, t: Tid, joins: bool)
    requires At(s, t).Idle? && (HasWriter(s.word) || IsContended(s.word))
    ensures IsContended(s.word) ==> Alone(Do(s, Call(t, ReadLoad)), t, false, 2) == Set(s, t, ReadPending)
    ensures !IsContended(s.word) ==>
      var s2 := Alone(Do(s, Call(t, ReadLoad)), t, false, 2);
      At(s2, t).ReadMark? && DoGo(s2, t, joins) == Set(s, t, ReadPending).(word := if joins then s.word + CONTENDED else s.word)
  {
    var s0 := Do(s, Call(t, ReadLoad));
    var s1 := DoGo(s0, t, false);
    var s2 := DoGo(s1, t, false);
    assert s1.threads[t] == ReadQueue;
    assert Alone(s0, t, false, 2) == Alone(s1, t, false, 1) == s2;
    if IsContended(s.word) {
      assert s2.threads == s.threads[t := ReadPending];
    } else {
      assert DoGo(s2, t, joins).threads == s.threads[t := ReadPending];
    }
  }

  /** A write future on its own: not queued, it gets its guard if the word is 0; woken, also if others wait. */
  lemma WriteAlone(s: State, t: Tid, woken: bool)
    requires At(s, t).Idle? && (s.word == 0 || (woken && s.word == CONTENDED))
    ensures var s' := Alone(Do(s, Call(t, WriteLoad)), t, woken, 3);
      && At(s', t).Writing? && HasWriter(s'.word) && ReaderField(s'.word) == 0
      && s'.writer == Some(t) && s'.data == s.data && s'.readers == s.readers
  {
    var s1 := Do(s, Call(t, WriteLoad));
    var s2 := DoGo(s1, t, woken);
    assert s2.threads[t] == WriteCas(s.word, woken);
    var s3 := DoGo(s2, t, woken);
    assert Alone(s1, t, woken, 3) == Alone(s2, t, woken, 2) == Alone(s3, t, woken, 1);
    if woken {
      assert Alone(s3, t, woken, 1) == DoGo(s3, t, woken);
    }
  }

  /** A write future that is not woken and finds the word other than 0 is left pending without a guard. If
      it joins the queue just now (`joins`) the contended bit is set; nothing else changes. */
  lemma WriteWaits(s: State, t: Tid, joins: bool)
    requires At(s, t).Idle? && s.word != 0
    ensures IsContended(s.word) ==> Alone(Do(s, Call(t, WriteLoad)), t, false, 2) == Set(s, t, WritePending)
    ensures !IsContended(s.word) ==>
      var s2 := Alone(Do(s, Call(t, WriteLoad)), t, false, 2);
      At(s2, t).WriteMark? && DoGo(s2, t, joins) == Set(s, t, WritePending).(word := if joins then s.word + CONTENDED else s.word)
  {
    var s0 := Do(s, Call(t, WriteLoad));
    var s1 := DoGo(s0, t, false);
    var s2 := DoGo(s1, t, false);
    assert s1.threads[t] == WriteQueue;
    assert Alone(s0, t, false, 2) == Alone(s1, t, false, 1) == s2;
    if IsContended(s.word) {
      assert s2.threads == s.threads[t := WritePending];
    } else {
      assert DoGo(s2, t, joins).threads == s.threads[t := WritePending];
    }
  }

  /** On its own, dropping the write guard takes two accesses at most and leaves the word 0. */
  lemma DropWriteAlone(s: State, t: Tid)
    requires At(s, t).Writing?
    ensures Alone(Do(s, DropWrite(t)), t, false, 2) == s.(threads := s.threads[t := Idle], word := 0, writer := None)
  {
    var s1 := Do(s, DropWrite(t));
    var s2 := DoGo(s1, t, false);
    assert Alone(s1, t, false, 2) == Alone(s2, t, false, 1);
  }

  /** Dropping a read guard takes one reader out of the word and nothing else. */
  lemma DropReadAlone(s: State, t: Tid)
    requires Inv(s) && At(s, t).Reading?
    ensures var s' := Do(s, DropRead(t));
      && At(s', t).Idle? && ReaderField(s.word) >= 1 && WordIs(s'.word, false, IsContended(s.word), ReaderField(s.word) - 1)
      && s'.readers == s.readers - {t} && s'.data == s.data
  {
    assert ThreadOk(t, s.threads[t], s.writer, s.readers, s.data);
    assert t in s.readers && |s.readers| >= 1;
  }

  /** On its own, a downgrade takes two accesses and leaves one reader and no writer. */
  lemma DowngradeAlone(s: State, t: Tid)
    requires Inv(s) && At(s, t).Writing?
    ensures var s' := Alone(Do(s, Downgrade(t)), t, false, 2);
      && At(s', t) == Reading(s.data) && WordIs(s'.word, false, IsContended(s.word), 1)
      && s'.readers == {t} && s'.writer.None? && s'.data == s.data
  {
    assert ThreadOk(t, s.threads[t], s.writer, s.readers, s.data);
    assert s.readers == {};
    var s1 := Do(s, Downgrade(t));
    var s2 := DoGo(s1, t, false);
    assert s2.threads[t] == DownCas(s.word);
    assert Alone(s1, t, false, 2) == Alone(s2, t, false, 1) == DoGo(s2, t, false);
  }
}
