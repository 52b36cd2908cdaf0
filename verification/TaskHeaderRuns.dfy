/** Runs of the task header that show what can go wrong when the scope is acknowledged. */
module TaskHeaderRuns {
  import opened Prelude
  import opened TaskHeader

  ghost predicate Reachable(s: State, mode: Mode) {
    exists steps :: Runs(Initial(), steps, mode, s)
  }

  function Append(steps: Trace, more: Trace): Trace {
    match steps
    case Nil => more
    case Cons(step, rest) => Cons(step, Append(rest, more))
  }

  lemma {:induction false} RunsAppend(s: State, steps: Trace, s': State, more: Trace, s'': State, mode: Mode)
    requires Runs(s, steps, mode, s') && Runs(s', more, mode, s'')
    ensures Runs(s, Append(steps, more), mode, s'')
    decreases steps
  {
    match steps {
      case Nil =>
      case Cons(step, rest) => RunsAppend(Do(s, step, mode), rest, s', more, s'', mode);
    }
  }

  lemma Onward(s: State, more: Trace, s': State, mode: Mode)
    requires Reachable(s, mode) && Runs(s, more, mode, s')
    ensures Reachable(s', mode)
  {
    var steps :| Runs(Initial(), steps, mode, s);
    RunsAppend(Initial(), steps, s, more, s', mode);
  }

  // ---------------------------------------------------------------------------------------
  // Marking and counting apart
  // ---------------------------------------------------------------------------------------

  function Word(completed: bool, queued: bool, polling: bool, acked: bool): Bits {
    Bits(completed, queued, polling, false, false, acked)
  }

  /** The task has been woken and is in the queue. */
  function Queued(): State {
    Initial().(bits := Word(false, true, false, false), refs := 2, queue := 1, wakers := map[0 := Slept], token := Some(InQueue), owed := true)
  }

  lemma ToQueued()
    ensures Reachable(Queued(), Apart)
  {
    assert Runs(Initial(), Nil, Apart, Initial());
    Onward(Initial(), Cons(Wake(0), Cons(WakeStep(0), Cons(WakeStep(0), Cons(WakeStep(0), Cons(WakeStep(0), Cons(WakeStep(0), Nil)))))), Queued(), Apart);
  }

  lemma JointQueued()
    ensures Reachable(Queued(), Together)
  {
    assert Runs(Initial(), Nil, Together, Initial());
    Onward(Initial(), Cons(Wake(0), Cons(WakeStep(0), Cons(WakeStep(0), Cons(WakeStep(0), Cons(WakeStep(0), Nil))))), Queued(), Together);
  }

  /** A worker has taken it out. */
  function Popped(): State {
    Queued().(bits := Word(false, false, false, false), refs := 1, queue := 0, workers := map[1 := EnterLoad], token := None)
  }

  lemma ToPopped()
    ensures Reachable(Popped(), Apart)
  {
    ToQueued();
    Onward(Queued(), Cons(Pop(1), Cons(WorkStep(1, false), Cons(WorkStep(1, false), Nil))), Popped(), Apart);
  }

  lemma JointPopped()
    ensures Reachable(Popped(), Together)
  {
    JointQueued();
    Onward(Queued(), Cons(Pop(1), Cons(WorkStep(1, false), Cons(WorkStep(1, false), Nil))), Popped(), Together);
  }

  /** It is in the future. */
  function Polled(): State {
    Popped().(bits := Word(false, false, true, false), workers := map[1 := InPoll], poller := Some(1), owed := false)
  }

  lemma ToPolled()
    ensures Reachable(Polled(), Apart)
  {
    ToPopped();
    Onward(Popped(), Cons(WorkStep(1, false), Cons(WorkStep(1, false), Cons(WorkStep(1, false), Nil))), Polled(), Apart);
  }

  lemma JointPolled()
    ensures Reachable(Polled(), Together)
  {
    JointPopped();
    Onward(Popped(), Cons(WorkStep(1, false), Cons(WorkStep(1, false), Cons(WorkStep(1, false), Nil))), Polled(), Together);
  }

  /** The task is marked queued again; the mark is not counted yet. */
  function Marked(): State {
    Polled().(bits := Word(false, true, true, false), wakers := map[0 := AddRef], token := Some(AtWaker(0)), owed := true)
  }

  lemma ToMarked()
    ensures Reachable(Marked(), Apart)
  {
    ToPolled();
    Onward(Polled(), Cons(Wake(0), Cons(WakeStep(0), Cons(WakeStep(0), Cons(WakeStep(0), Nil)))), Marked(), Apart);
  }

  /** The future is done. */
  function Ready(): State {
    Marked().(workers := map[1 := Complete], results := 1)
  }

  lemma ToReady()
    ensures Reachable(Ready(), Apart)
  {
    ToMarked();
    Onward(Marked(), Cons(WorkStep(1, true), Cons(WorkStep(1, true), Nil)), Ready(), Apart);
  }

  /** The task is complete. */
  function Completed(): State {
    Ready().(bits := Word(true, true, true, false), workers := map[1 := Dec])
  }

  lemma ToCompleted()
    ensures Reachable(Completed(), Apart)
  {
    ToReady();
    Onward(Ready(), Cons(WorkStep(1, true), Nil), Completed(), Apart);
  }

  /** The finalizer saw the count reach zero. */
  function Finished(): State {
    Completed().(refs := 0, workers := map[1 := ExitPoll(true)], ackers := {1})
  }

  lemma ToFinished()
    ensures Reachable(Finished(), Apart)
  {
    ToCompleted();
    Onward(Completed(), Cons(WorkStep(1, true), Nil), Finished(), Apart);
  }

  /** It acknowledged, and the scope was told. */
  function Acknowledged(): State {
    Finished().(bits := Word(true, true, false, true), workers := map[1 := Free], poller := None, calls := 1, dones := 1, ackers := {})
  }

  lemma ToAcknowledged()
    ensures Reachable(Acknowledged(), Apart)
  {
    ToFinished();
    Onward(Finished(), Cons(WorkStep(1, true), Cons(WorkStep(1, true), Nil)), Acknowledged(), Apart);
  }

  /** The mark is counted and the task queued. */
  function Requeued(): State {
    Acknowledged().(refs := 1, late := 1, queue := 1, wakers := map[0 := Slept], token := Some(InQueue))
  }

  lemma ToRequeued()
    ensures Reachable(Requeued(), Apart)
  {
    ToAcknowledged();
    Onward(Acknowledged(), Cons(WakeStep(0), Cons(WakeStep(0), Nil)), Requeued(), Apart);
  }

  /** A worker has taken it out. */
  function Repopped(): State {
    Requeued().(bits := Word(true, false, false, true), queue := 0, workers := map[1 := Free, 2 := Sub], clearing := {2}, token := None)
  }

  lemma ToRepopped()
    ensures Reachable(Repopped(), Apart)
  {
    ToRequeued();
    Onward(Requeued(), Cons(Pop(2), Cons(WorkStep(2, false), Nil)), Repopped(), Apart);
  }

  /** It too saw the count reach zero and called; the scope is not told again. */
  function AcknowledgedAgain(): State {
    Repopped().(refs := 0, workers := map[1 := Free, 2 := Free], clearing := {}, calls := 2)
  }

  lemma ToAcknowledgedAgain()
    ensures Reachable(AcknowledgedAgain(), Apart)
  {
    ToRepopped();
    Onward(Repopped(), Cons(WorkStep(2, false), Cons(WorkStep(2, false), Nil)), AcknowledgedAgain(), Apart);
  }

  /** With the two accesses apart, as the code has them, the scope can be told while a waker is still
      about to count and queue the task, and `acknowledge_completion` is then called a second time. */
  lemma CountingApartCallsTwice()
    ensures Reachable(Acknowledged(), Apart) && Acknowledged().dones == 1 && Uncounted(Acknowledged().token, Acknowledged().wakers)
    ensures Reachable(AcknowledgedAgain(), Apart) && AcknowledgedAgain().calls == 2 && AcknowledgedAgain().dones == 1
  {
    ToAcknowledged();
    ToAcknowledgedAgain();
  }

  // ---------------------------------------------------------------------------------------
  // Marking and counting in one access: workers left behind
  // ---------------------------------------------------------------------------------------

  /** Woken during the poll, the task is marked queued and counted. */
  function MarkedAgain(): State {
    Polled().(bits := Word(false, true, true, false), refs := 2, wakers := map[0 := Push], token := Some(AtWaker(0)), owed := true)
  }

  lemma ToMarkedAgain()
    ensures Reachable(MarkedAgain(), Together)
  {
    JointPolled();
    Onward(Polled(), Cons(Wake(0), Cons(WakeStep(0), Cons(WakeStep(0), Cons(WakeStep(0), Nil)))), MarkedAgain(), Together);
  }

  /** It is in the queue again. */
  function QueuedAgain(): State {
    MarkedAgain().(queue := 1, wakers := map[0 := Slept], token := Some(InQueue))
  }

  lemma ToQueuedAgain()
    ensures Reachable(QueuedAgain(), Together)
  {
    ToMarkedAgain();
    Onward(MarkedAgain(), Cons(WakeStep(0), Nil), QueuedAgain(), Together);
  }

  /** A second worker has taken it out. */
  function PoppedBeside(): State {
    QueuedAgain().(bits := Word(false, false, true, false), queue := 0, workers := map[1 := InPoll, 2 := Sub], token := None, clearing := {2})
  }

  lemma ToPoppedBeside()
    ensures Reachable(PoppedBeside(), Together)
  {
    ToQueuedAgain();
    Onward(QueuedAgain(), Cons(Pop(2), Cons(WorkStep(2, false), Nil)), PoppedBeside(), Together);
  }

  /** It has given up the reference, and is about to look at the header. */
  function AboutToLook(): State {
    PoppedBeside().(refs := 1, workers := map[1 := InPoll, 2 := EnterLoad], clearing := {})
  }

  lemma ToAboutToLook()
    ensures Reachable(AboutToLook(), Together)
  {
    ToPoppedBeside();
    Onward(PoppedBeside(), Cons(WorkStep(2, false), Nil), AboutToLook(), Together);
  }

  /** Meanwhile the future is done. */
  function ReadyBeside(): State {
    AboutToLook().(workers := map[1 := Complete, 2 := EnterLoad], results := 1)
  }

  lemma ToReadyBeside()
    ensures Reachable(ReadyBeside(), Together)
  {
    ToAboutToLook();
    Onward(AboutToLook(), Cons(WorkStep(1, true), Cons(WorkStep(1, true), Nil)), ReadyBeside(), Together);
  }

  /** The task is complete. */
  function CompletedBeside(): State {
    ReadyBeside().(bits := Word(true, false, true, false), workers := map[1 := Dec, 2 := EnterLoad])
  }

  lemma ToCompletedBeside()
    ensures Reachable(CompletedBeside(), Together)
  {
    ToReadyBeside();
    Onward(ReadyBeside(), Cons(WorkStep(1, true), Nil), CompletedBeside(), Together);
  }

  /** The poller saw the count reach zero. */
  function FinishedBeside(): State {
    CompletedBeside().(refs := 0, workers := map[1 := ExitPoll(true), 2 := EnterLoad], ackers := {1})
  }

  lemma ToFinishedBeside()
    ensures Reachable(FinishedBeside(), Together)
  {
    ToCompletedBeside();
    Onward(CompletedBeside(), Cons(WorkStep(1, true), Nil), FinishedBeside(), Together);
  }

  /** The scope can be told while a worker that took the task out of the queue is about to look at its
      header, although the queued bit is clear and every reference was counted. */
  lemma ToldBesideAnEnteringWorker()
    ensures Reachable(FinishedBeside(), Together) && FinishedBeside().refs == 0 && !FinishedBeside().bits.queued
    ensures !NeverTellsWhileHeld(FinishedBeside(), Together)
  {
    ToFinishedBeside();
    var s := FinishedBeside();
    var steps :| Runs(Initial(), steps, Together, s);
    ToldWhileHeldIff(steps, Together, s);
    assert 1 in s.workers && 2 in s.workers && !s.workers[1].Free? && !s.workers[2].Free?;
  }

  /** The future is done while the task is in the queue. */
  function ReadyQueued(): State {
    QueuedAgain().(workers := map[1 := Complete], results := 1)
  }

  lemma ToReadyQueued()
    ensures Reachable(ReadyQueued(), Together)
  {
    ToQueuedAgain();
    Onward(QueuedAgain(), Cons(WorkStep(1, true), Cons(WorkStep(1, true), Nil)), ReadyQueued(), Together);
  }

  /** The task is complete. */
  function CompletedQueued(): State {
    ReadyQueued().(bits := Word(true, true, true, false), workers := map[1 := Dec])
  }

  lemma ToCompletedQueued()
    ensures Reachable(CompletedQueued(), Together)
  {
    ToReadyQueued();
    Onward(ReadyQueued(), Cons(WorkStep(1, true), Nil), CompletedQueued(), Together);
  }

  /** The poller has given up the task's reference and not left the poll yet. */
  function FinishedQueued(): State {
    CompletedQueued().(refs := 1, workers := map[1 := ExitPoll(false)])
  }

  lemma ToFinishedQueued()
    ensures Reachable(FinishedQueued(), Together)
  {
    ToCompletedQueued();
    Onward(CompletedQueued(), Cons(WorkStep(1, true), Nil), FinishedQueued(), Together);
  }

  /** A second worker has taken it out. */
  function PoppedLate(): State {
    FinishedQueued().(bits := Word(true, false, true, false), queue := 0, workers := map[1 := ExitPoll(false), 2 := Sub], token := None, clearing := {2})
  }

  lemma ToPoppedLate()
    ensures Reachable(PoppedLate(), Together)
  {
    ToFinishedQueued();
    Onward(FinishedQueued(), Cons(Pop(2), Cons(WorkStep(2, false), Nil)), PoppedLate(), Together);
  }

  /** It saw the count reach zero. */
  function PolledBeside(): State {
    PoppedLate().(refs := 0, workers := map[1 := ExitPoll(false), 2 := Ack], clearing := {}, ackers := {2})
  }

  lemma ToPolledBeside()
    ensures Reachable(PolledBeside(), Together)
  {
    ToPoppedLate();
    Onward(PoppedLate(), Cons(WorkStep(2, false), Nil), PolledBeside(), Together);
  }

  /** Likewise while the poller, its reference given up, has yet to leave the poll state. */
  lemma ToldBesideThePoller()
    ensures Reachable(PolledBeside(), Together) && PolledBeside().refs == 0 && !PolledBeside().bits.queued
    ensures TellsWhileHeld(PolledBeside(), WorkStep(2, false))
  {
    ToPolledBeside();
    assert 1 in PolledBeside().workers && PolledBeside().workers[1] == ExitPoll(false);
  }
}
