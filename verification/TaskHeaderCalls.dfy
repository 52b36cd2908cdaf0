/** What wakes and polls of a task come to: what can complete it, and what a wake, a poll, a cancelled poll and
    a wake during a poll do when nobody else moves. */
module TaskHeaderCalls {
  import opened Prelude
  import opened TaskHeader

  // ---------------------------------------------------------------------------------------
  // What completes a task
  // ---------------------------------------------------------------------------------------

  /** Nobody cancels the task, and no look of a worker finds the future done or the scope cancelled. */
  ghost predicate StillPending(steps: Trace)
    decreases steps
  {
    match steps
    case Nil => true
    case Cons(step, rest) => !step.Cancel? && (step.WorkStep? ==> !step.choice) && StillPending(rest)
  }

  predicate Finishing(pc: WorkPc) {
    pc.SetResult? || pc.Complete? || pc.Dec? || pc.ExitPoll?
  }

  ghost predicate Unfinished(s: State) {
    && !s.bits.completed && !s.bits.cancelled && s.results == 0
    && forall t :: t in s.workers ==> !Finishing(s.workers[t])
  }

  lemma StepLeavesUnfinished(s: State, step: Step, mode: Mode)
    requires Unfinished(s) && Enabled(s, step) && !step.Cancel? && (step.WorkStep? ==> !step.choice)
    ensures Unfinished(Do(s, step, mode))
  {
    match step {
      case Wake(_) =>
      case WakeStep(t) =>
        match s.wakers[t] {
          case Check =>
          case Mark =>
          case MarkCas(_) =>
          case AddRef =>
          case Push =>
        }
      case Pop(_) =>
      case WorkStep(t, _) => WorkLeavesUnfinished(s, t, Do(s, step, mode));
    }
  }

  lemma WorkLeavesUnfinished(s: State, t: Tid, s': State)
    requires Unfinished(s) && t in s.workers && s' == DoWork(s, t, false)
    ensures Unfinished(s')
  {
    PendingWorker(s, t, s');
  }

  lemma PendingWorker(s: State, t: Tid, s': State)
    requires t in s.workers && s' == DoWork(s, t, false) && !s.bits.completed && !s.bits.cancelled && !Finishing(s.workers[t])
    ensures !s'.bits.completed && !s'.bits.cancelled && s'.results == s.results && !Finishing(s'.workers[t])
  {
    var pc := s.workers[t];
    if pc.Clear? || pc.Sub? || pc.EnterLoad? || pc.Enter? {
      PendingOutside(s, t, s');
    } else if pc.Head? || pc.InPoll? || pc.PendCheck? {
      PendingInside(s, t, s');
    } else {
      PendingLeaves(s, t, s');
    }
  }

  lemma PendingOutside(s: State, t: Tid, s': State)
    requires t in s.workers && s' == DoWork(s, t, false) && !s.bits.completed && !s.bits.cancelled
    requires var pc := s.workers[t]; pc.Clear? || pc.Sub? || pc.EnterLoad? || pc.Enter?
    ensures !s'.bits.completed && !s'.bits.cancelled && s'.results == s.results && !Finishing(s'.workers[t])
  {
    match s.workers[t] {
      case Clear => assert s'.bits == s.bits.(queued := false) && (s'.workers[t].Sub? || s'.workers[t].EnterLoad?);
      case Sub => assert s'.bits == s.bits && (s'.workers[t].Ack? || s'.workers[t].EnterLoad?);
      case EnterLoad =>
      case Enter(b) => PendingEnter(s, t, b, s');
    }
  }

  lemma PendingEnter(s: State, t: Tid, b: Bits, s': State)
    requires t in s.workers && s.workers[t] == Enter(b) && s' == DoWork(s, t, false) && !s.bits.completed && !s.bits.cancelled
    ensures !s'.bits.completed && !s'.bits.cancelled && s'.results == s.results && !Finishing(s'.workers[t])
  {
    if b.completed {
    } else if s.bits != b {
    } else if b.polling {
    }
  }

  lemma PendingInside(s: State, t: Tid, s': State)
    requires t in s.workers && s' == DoWork(s, t, false) && !s.bits.completed && !s.bits.cancelled
    requires var pc := s.workers[t]; pc.Head? || pc.InPoll? || pc.PendCheck?
    ensures !s'.bits.completed && !s'.bits.cancelled && s'.results == s.results && !Finishing(s'.workers[t])
  {
  }

  lemma PendingLeaves(s: State, t: Tid, s': State)
    requires t in s.workers && s' == DoWork(s, t, false) && !s.bits.completed && !s.bits.cancelled
    requires var pc := s.workers[t]; pc.ExitLoad? || pc.Exit? || pc.Ack? || pc.Free?
    ensures !s'.bits.completed && !s'.bits.cancelled && s'.results == s.results && !Finishing(s'.workers[t])
  {
  }

  lemma {:induction false} RunLeavesUnfinished(s: State, steps: Trace, mode: Mode, s': State)
    requires Unfinished(s) && Runs(s, steps, mode, s') && StillPending(steps)
    ensures Unfinished(s')
    decreases steps
  {
    match steps {
      case Nil =>
      case Cons(step, rest) =>
        StepLeavesUnfinished(s, step, mode);
        RunLeavesUnfinished(Do(s, step, mode), rest, mode, s');
    }
  }

  /** Over every run: a task completes and has a result only if its future was found done, or the task or its
      scope was cancelled. */
  lemma CompletionHasACause(steps: Trace, mode: Mode, s: State)
    requires Runs(Initial(), steps, mode, s) && (s.bits.completed || s.results > 0)
    ensures !StillPending(steps)
  {
    if StillPending(steps) {
      RunLeavesUnfinished(Initial(), steps, mode, s);
      assert false;
    }
  }

  // ---------------------------------------------------------------------------------------
  // Cancelled tasks are not polled
  // ---------------------------------------------------------------------------------------

  ghost predicate NobodyPolls(s: State) {
    forall t :: t in s.workers ==> !s.workers[t].InPoll?
  }

  lemma CancelledStep(s: State, step: Step, mode: Mode)
    requires s.bits.cancelled && NobodyPolls(s) && Enabled(s, step)
    ensures Do(s, step, mode).bits.cancelled && NobodyPolls(Do(s, step, mode))
  {
    match step {
      case Wake(_) =>
      case WakeStep(t) =>
        match s.wakers[t] {
          case Check =>
          case Mark =>
          case MarkCas(_) =>
          case AddRef =>
          case Push =>
        }
      case Pop(_) =>
      case WorkStep(t, choice) => CancelledWorker(s, t, choice, Do(s, step, mode));
      case Cancel =>
    }
  }

  lemma CancelledWorker(s: State, t: Tid, choice: bool, s': State)
    requires s.bits.cancelled && t in s.workers && !s.workers[t].InPoll? && s' == DoWork(s, t, choice)
    ensures s'.bits.cancelled && !s'.workers[t].InPoll?
  {
    match s.workers[t] {
      case Clear => assert s'.bits == s.bits.(queued := false);
      case Sub => assert s'.bits == s.bits;
      case EnterLoad =>
      case Enter(b) => CancelledEnter(s, t, b, choice, s');
      case Head =>
      case PendCheck =>
      case ExitLoad =>
      case Exit(b) => CancelledExit(s, t, b, choice, s');
      case SetResult =>
      case Complete =>
      case Dec => assert s'.bits == s.bits;
      case ExitPoll(_) => assert s'.bits == s.bits.(polling := false);
      case Ack => assert s'.bits == s.bits.(acked := true);
      case Free =>
    }
  }

  lemma CancelledEnter(s: State, t: Tid, b: Bits, choice: bool, s': State)
    requires s.bits.cancelled && t in s.workers && s.workers[t] == Enter(b) && s' == DoWork(s, t, choice)
    ensures s'.bits.cancelled && !s'.workers[t].InPoll?
  {
    if b.completed {
    } else if s.bits != b {
    } else if b.polling {
    }
  }

  lemma CancelledExit(s: State, t: Tid, b: Bits, choice: bool, s': State)
    requires s.bits.cancelled && t in s.workers && s.workers[t] == Exit(b) && s' == DoWork(s, t, choice)
    ensures s'.bits.cancelled && !s'.workers[t].InPoll?
  {
    if s.bits != b {
    } else if b.woken {
    }
  }

  lemma {:induction false} CancelledRun(s: State, steps: Trace, mode: Mode, s': State)
    requires s.bits.cancelled && NobodyPolls(s) && Runs(s, steps, mode, s')
    ensures s'.bits.cancelled && NobodyPolls(s')
    decreases steps
  {
    match steps {
      case Nil =>
      case Cons(step, rest) =>
        CancelledStep(s, step, mode);
        CancelledRun(Do(s, step, mode), rest, mode, s');
    }
  }

  /** Once a task is cancelled, with no worker in its future, it stays so and no worker ever polls it. */
  lemma CancelledIsNotPolled(s: State, steps: Trace, mode: Mode, s': State)
    requires NobodyPolls(s) && Runs(Do(s, Cancel, mode), steps, mode, s')
    ensures s'.bits.cancelled && NobodyPolls(s')
  {
    CancelledRun(Do(s, Cancel, mode), steps, mode, s');
  }

  // ---------------------------------------------------------------------------------------
  // A wake on its own
  // ---------------------------------------------------------------------------------------

  /** Up to `n` accesses of one waker, nobody else moving. */
  function Wakes(s: State, t: Tid, mode: Mode, n: nat): State
    requires t in s.wakers
    decreases n
  {
    if n == 0 || s.wakers[t].Slept? then s else Wakes(DoWake(s, t, mode), t, mode, n - 1)
  }

  predicate CanWake(s: State, t: Tid) {
    t !in s.wakers || s.wakers[t].Slept?
  }

  predicate CanPop(s: State, t: Tid) {
    s.queue > 0 && (t !in s.workers || s.workers[t].Free?)
  }

  /** The task marked, counted and in the queue. */
  function Enqueued(s: State, t: Tid): State {
    SetWaker(s, t, Slept).(bits := s.bits.(queued := true), refs := s.refs + 1, queue := s.queue + 1, token := Some(InQueue), owed := true)
  }

  lemma OpenIsCounted(s: State)
    requires Inv(s)
    ensures s.bits.completed || s.refs > 0
  {
  }

  /** In five accesses at most, a wake puts the task in the queue, counted, exactly if it is neither complete nor
      queued already. */
  lemma WakeAlone(s: State, t: Tid, mode: Mode, n: nat)
    requires CanWake(s, t) && (s.bits.completed || s.refs > 0) && n >= 5
    ensures var s' := Wakes(Do(s, Wake(t), mode), t, mode, n);
      s' == if s.bits.completed then SetWaker(s, t, Slept) else if s.bits.queued then SetWaker(s, t, Slept).(owed := true) else Enqueued(s, t)
  {
    var s0 := SetWaker(s, t, Check);
    assert s0.wakers[t := Slept] == s.wakers[t := Slept];
    if s.bits.completed {
      WakeCompleted(s0, t, mode, n);
    } else if s.bits.queued {
      WakeQueued(s0, t, mode, n);
    } else {
      WakeOpen(s0, t, mode, n);
    }
  }

  lemma WakeCompleted(s: State, t: Tid, mode: Mode, n: nat)
    requires t in s.wakers && s.wakers[t].Check? && s.bits.completed && n >= 1
    ensures Wakes(s, t, mode, n) == SetWaker(s, t, Slept)
  {
    assert Wakes(s, t, mode, n) == Wakes(DoWake(s, t, mode), t, mode, n - 1);
  }

  lemma WakeQueued(s: State, t: Tid, mode: Mode, n: nat)
    requires t in s.wakers && s.wakers[t].Check? && !s.bits.completed && s.bits.queued && n >= 2
    ensures Wakes(s, t, mode, n) == SetWaker(s, t, Slept).(owed := true)
  {
    var s1 := DoWake(s, t, mode);
    assert Wakes(s, t, mode, n) == Wakes(s1, t, mode, n - 1) == Wakes(DoWake(s1, t, mode), t, mode, n - 2);
    assert DoWake(s1, t, mode).wakers == s.wakers[t := Slept];
  }

  lemma WakeOpen(s: State, t: Tid, mode: Mode, n: nat)
    requires t in s.wakers && s.wakers[t].Check? && !s.bits.completed && !s.bits.queued && s.refs > 0 && n >= 5
    ensures Wakes(s, t, mode, n) == Enqueued(s, t)
  {
    var s1 := SetWaker(s, t, Mark);
    var s2 := SetWaker(s, t, MarkCas(s.bits));
    assert s1 == DoWake(s, t, mode);
    assert s1.wakers[t := MarkCas(s.bits)] == s2.wakers;
    assert s2 == DoWake(s1, t, mode);
    assert Wakes(s, t, mode, n) == Wakes(s1, t, mode, n - 1) == Wakes(s2, t, mode, n - 2);
    MarkAndPush(s2, t, mode, n - 2);
    assert s2.wakers[t := Slept] == s.wakers[t := Slept];
  }

  lemma MarkAndPush(s: State, t: Tid, mode: Mode, n: nat)
    requires t in s.wakers && s.wakers[t] == MarkCas(s.bits) && s.refs > 0 && n >= 3
    ensures Wakes(s, t, mode, n) == Enqueued(s, t)
  {
    var s1 := DoWake(s, t, mode);
    var s2 := DoWake(s1, t, mode);
    assert Wakes(s, t, mode, n) == Wakes(s1, t, mode, n - 1) == Wakes(s2, t, mode, n - 2);
    if mode.Apart? {
      assert Wakes(s2, t, mode, n - 2) == Wakes(DoWake(s2, t, mode), t, mode, n - 3);
      assert DoWake(s2, t, mode).wakers == s.wakers[t := Slept];
    } else {
      assert s2.wakers == s.wakers[t := Slept];
    }
  }

  // ---------------------------------------------------------------------------------------
  // A poll on its own
  // ---------------------------------------------------------------------------------------

  /** `n` accesses of one worker, nobody else moving. */
  ghost predicate Works(s: State, t: Tid, choice: bool, n: nat, s': State)
    decreases n
  {
    if n == 0 then s' == s
    else t in s.workers && !s.workers[t].Free? && Works(DoWork(s, t, choice), t, choice, n - 1, s')
  }

  /** The worker, moving alone, comes to `s'`. */
  ghost predicate ComesTo(s: State, t: Tid, choice: bool, s': State) {
    exists n: nat :: Works(s, t, choice, n, s')
  }

  lemma Moves(s: State, t: Tid, choice: bool, s': State)
    requires t in s.workers && !s.workers[t].Free? && s' == DoWork(s, t, choice)
    ensures ComesTo(s, t, choice, s')
  {
    assert Works(s', t, choice, 0, s');
    assert Works(s, t, choice, 1, s');
  }

  lemma {:induction false} WorksAgain(s: State, t: Tid, choice: bool, n: nat, s': State, m: nat, s'': State)
    requires Works(s, t, choice, n, s') && Works(s', t, choice, m, s'')
    ensures Works(s, t, choice, n + m, s'')
    decreases n
  {
    if n > 0 {
      WorksAgain(DoWork(s, t, choice), t, choice, n - 1, s', m, s'');
    }
  }

  lemma Then(s: State, t: Tid, choice: bool, s': State, s'': State)
    requires ComesTo(s, t, choice, s') && ComesTo(s', t, choice, s'')
    ensures ComesTo(s, t, choice, s'')
  {
    var n: nat :| Works(s, t, choice, n, s');
    var m: nat :| Works(s', t, choice, m, s'');
    WorksAgain(s, t, choice, n, s', m, s'');
  }

  /** Where a worker is through, it stays: it comes to one end only. */
  lemma {:induction false} EndIsUnique(s: State, t: Tid, choice: bool, n: nat, s': State, m: nat, s'': State)
    requires Works(s, t, choice, n, s') && t in s'.workers && s'.workers[t].Free?
    requires Works(s, t, choice, m, s'') && t in s''.workers && s''.workers[t].Free?
    ensures s' == s''
    decreases n
  {
    if n > 0 && m > 0 {
      EndIsUnique(DoWork(s, t, choice), t, choice, n - 1, s', m - 1, s'');
    }
  }

  lemma PoppedIsCounted(s: State, t: Tid)
    requires Inv(s) && CanPop(s, t)
    ensures s.bits.queued && t !in s.clearing && (!s.bits.completed ==> s.refs >= 2)
  {
    assert t in s.workers ==> OkAt(s, t);
  }

  /** The task out of the queue and its reference given up. */
  function Dequeued(s: State, t: Tid, pc: WorkPc): State {
    SetWorker(s, t, pc).(bits := s.bits.(queued := false), refs := s.refs - 1, queue := s.queue - 1, token := None)
  }

  lemma ClearBit(s: State, t: Tid, choice: bool)
    requires t in s.workers && s.workers[t].Clear? && s.bits.queued
    ensures ComesTo(s, t, choice, SetWorker(s, t, Sub).(bits := s.bits.(queued := false), token := None, clearing := s.clearing + {t}))
  {
    Moves(s, t, choice, DoWork(s, t, choice));
  }

  lemma GiveUpQueued(s: State, t: Tid, choice: bool)
    requires t in s.workers && s.workers[t].Sub? && s.refs > 1
    ensures ComesTo(s, t, choice, SetWorker(s, t, EnterLoad).(refs := s.refs - 1, clearing := s.clearing - {t}))
  {
    Moves(s, t, choice, DoWork(s, t, choice));
  }

  lemma Dequeue(s: State, t: Tid, choice: bool, mode: Mode)
    requires Inv(s) && CanPop(s, t) && !s.bits.completed
    ensures ComesTo(Do(s, Pop(t), mode), t, choice, Dequeued(s, t, EnterLoad))
  {
    PoppedIsCounted(s, t);
    DequeueCounted(s, Do(s, Pop(t), mode), t, choice);
  }

  lemma DequeueCounted(s: State, s0: State, t: Tid, choice: bool)
    requires s.bits.queued && t !in s.clearing && s.refs >= 2
    requires s0 == SetWorker(s, t, Clear).(queue := s.queue - 1, token := Some(AtWorker(t)))
    ensures ComesTo(s0, t, choice, Dequeued(s, t, EnterLoad))
  {
    ClearBit(s0, t, choice);
    var s1 := SetWorker(s0, t, Sub).(bits := s0.bits.(queued := false), token := None, clearing := s0.clearing + {t});
    GiveUpQueued(s1, t, choice);
    assert s1.workers[t := EnterLoad] == s.workers[t := EnterLoad] && s1.clearing - {t} == s.clearing;
    Then(s0, t, choice, s1, Dequeued(s, t, EnterLoad));
  }

  /** The worker inside the poll. */
  function Entered(s: State, t: Tid, pc: WorkPc): State {
    SetWorker(s, t, pc).(bits := s.bits.(polling := true), poller := Some(t))
  }

  lemma EnterPoll(s: State, t: Tid, choice: bool)
    requires t in s.workers && s.workers[t].EnterLoad? && !s.bits.completed && !s.bits.polling
    ensures ComesTo(s, t, choice, Entered(s, t, Head))
  {
    var s1 := DoWork(s, t, choice);
    var s2 := DoWork(s1, t, choice);
    assert s2.workers == s.workers[t := Head];
    Moves(s, t, choice, s1);
    Moves(s1, t, choice, s2);
    Then(s, t, choice, s1, s2);
  }

  /** From the queue to the head of the poll loop. */
  lemma DequeueAndEnter(s: State, t: Tid, choice: bool, mode: Mode)
    requires Inv(s) && CanPop(s, t) && !s.bits.completed && !s.bits.polling
    ensures ComesTo(Do(s, Pop(t), mode), t, choice, Entered(Dequeued(s, t, EnterLoad), t, Head))
  {
    Dequeue(s, t, choice, mode);
    EnterPoll(Dequeued(s, t, EnterLoad), t, choice);
    Then(Do(s, Pop(t), mode), t, choice, Dequeued(s, t, EnterLoad), Entered(Dequeued(s, t, EnterLoad), t, Head));
  }

  /** The worker in the future, with the wake paid for. */
  function Polling(s: State, t: Tid): State {
    Entered(Dequeued(s, t, EnterLoad), t, InPoll).(owed := false)
  }

  lemma HeadToPolling(s: State, t: Tid)
    requires !s.bits.cancelled
    ensures ComesTo(Entered(Dequeued(s, t, EnterLoad), t, Head), t, false, Polling(s, t))
  {
    var s4 := Entered(Dequeued(s, t, EnterLoad), t, Head);
    assert s4.workers[t := InPoll] == Polling(s, t).workers;
    Moves(s4, t, false, Polling(s, t));
  }

  /** A task taken out of the queue that nobody else polls is polled, unless it is cancelled. */
  lemma PollAlone(s: State, t: Tid, mode: Mode)
    requires Inv(s) && CanPop(s, t) && !s.bits.completed && !s.bits.cancelled && !s.bits.polling
    ensures ComesTo(Do(s, Pop(t), mode), t, false, Polling(s, t))
  {
    DequeueAndEnter(s, t, false, mode);
    HeadToPolling(s, t);
    Then(Do(s, Pop(t), mode), t, false, Entered(Dequeued(s, t, EnterLoad), t, Head), Polling(s, t));
  }

  /** A worker in the future that finds it pending, up to the look at the woken bit. */
  lemma FindsPending(s: State, t: Tid)
    requires t in s.workers && s.workers[t].InPoll? && !s.bits.cancelled
    ensures ComesTo(s, t, false, SetWorker(s, t, ExitLoad))
  {
    var s1 := DoWork(s, t, false);
    var s2 := DoWork(s1, t, false);
    assert s2.workers == s.workers[t := ExitLoad];
    Moves(s, t, false, s1);
    Moves(s1, t, false, s2);
    Then(s, t, false, s1, s2);
  }

  /** What the look at the woken bit decides. */
  lemma LeavesOrStays(s: State, t: Tid)
    requires t in s.workers && s.workers[t].ExitLoad? && s.bits.polling
    ensures s.bits.woken ==> ComesTo(s, t, false, SetWorker(s, t, Head).(bits := s.bits.(woken := false)))
    ensures !s.bits.woken ==> ComesTo(s, t, false, SetWorker(s, t, Free).(bits := s.bits.(polling := false), poller := None))
  {
    var s1 := DoWork(s, t, false);
    var s2 := DoWork(s1, t, false);
    assert s2.workers == s.workers[t := if s.bits.woken then Head else Free];
    Moves(s, t, false, s1);
    Moves(s1, t, false, s2);
    Then(s, t, false, s1, s2);
  }

  lemma LeavePoll(s: State, t: Tid)
    requires t in s.workers && s.workers[t].InPoll? && !s.bits.cancelled && !s.bits.woken && s.bits.polling
    ensures ComesTo(s, t, false, SetWorker(s, t, Free).(bits := s.bits.(polling := false), poller := None))
  {
    var s2 := SetWorker(s, t, ExitLoad);
    var s4 := SetWorker(s, t, Free).(bits := s.bits.(polling := false), poller := None);
    FindsPending(s, t);
    LeavesOrStays(s2, t);
    assert s2.workers[t := Free] == s.workers[t := Free];
    Then(s, t, false, s2, s4);
  }

  /** The poller, having found the future pending, polls it again exactly if the woken bit is set. */
  lemma WokenPollsAgain(s: State, t: Tid)
    requires t in s.workers && s.workers[t].InPoll? && !s.bits.cancelled && s.bits.polling
    ensures s.bits.woken ==> ComesTo(s, t, false, s.(bits := s.bits.(woken := false), owed := false))
    ensures !s.bits.woken ==> ComesTo(s, t, false, SetWorker(s, t, Free).(bits := s.bits.(polling := false), poller := None))
  {
    if s.bits.woken {
      var s2, s4 := SetWorker(s, t, ExitLoad), SetWorker(s, t, Head).(bits := s.bits.(woken := false));
      FindsPending(s, t);
      LeavesOrStays(s2, t);
      assert s2.workers[t := Head] == s.workers[t := Head];
      Then(s, t, false, s2, s4);
      HeadToFuture(s4, t);
      assert s4.workers[t := InPoll] == s.workers;
      Then(s, t, false, s4, s.(bits := s.bits.(woken := false), owed := false));
    } else {
      LeavePoll(s, t);
    }
  }

  lemma HeadToFuture(s: State, t: Tid)
    requires t in s.workers && s.workers[t].Head? && !s.bits.cancelled
    ensures ComesTo(s, t, false, SetWorker(s, t, InPoll).(owed := false))
  {
    Moves(s, t, false, DoWork(s, t, false));
  }

  /** The woken bit is set only while somebody polls, or left over from the poll that completed the task. */
  predicate WokenOk(bits: Bits) {
    bits.woken ==> bits.polling || bits.completed
  }

  lemma StepKeepsWoken(s: State, step: Step, mode: Mode)
    requires Inv(s) && WokenOk(s.bits) && Enabled(s, step)
    ensures WokenOk(Do(s, step, mode).bits)
  {
    match step {
      case Wake(_) =>
      case WakeStep(t) =>
        match s.wakers[t] {
          case Check =>
          case Mark =>
          case MarkCas(_) =>
          case AddRef =>
          case Push =>
        }
      case Pop(_) =>
      case WorkStep(t, choice) => WorkKeepsWoken(s, t, choice, Do(s, step, mode));
      case Cancel =>
    }
  }

  lemma WorkKeepsWoken(s: State, t: Tid, choice: bool, s': State)
    requires Inv(s) && WokenOk(s.bits) && t in s.workers && s' == DoWork(s, t, choice)
    ensures WokenOk(s'.bits)
  {
    assert OkAt(s, t);
    match s.workers[t] {
      case Clear =>
      case Sub =>
      case EnterLoad =>
      case Enter(_) =>
      case Head =>
      case InPoll =>
      case PendCheck =>
      case ExitLoad =>
      case Exit(_) =>
      case SetResult =>
      case Complete =>
      case Dec =>
      case ExitPoll(_) =>
      case Ack =>
      case Free =>
    }
  }

  lemma {:induction false} RunKeepsWoken(s: State, steps: Trace, mode: Mode, s': State)
    requires Inv(s) && AckOk(s) && WokenOk(s.bits) && Runs(s, steps, mode, s')
    ensures WokenOk(s'.bits)
    decreases steps
  {
    match steps {
      case Nil =>
      case Cons(step, rest) =>
        StepKeepsWoken(s, step, mode);
        StepKeeps(s, step, mode);
        RunKeepsWoken(Do(s, step, mode), rest, mode, s');
    }
  }

  lemma ReachableWoken(steps: Trace, mode: Mode, s: State)
    requires Runs(Initial(), steps, mode, s)
    ensures Inv(s) && WokenOk(s.bits)
  {
    InitialInv();
    ReachableInv(steps, mode, s);
    RunKeepsWoken(Initial(), steps, mode, s);
  }

  lemma PollingLeaves(s: State, t: Tid)
    requires !s.bits.cancelled && !s.bits.woken && !s.bits.polling && s.poller.None?
    ensures ComesTo(Polling(s, t), t, false, Dequeued(s, t, Free).(owed := false))
  {
    var s5 := Polling(s, t);
    LeavePoll(s5, t);
    assert s5.workers[t := Free] == s.workers[t := Free];
    assert SetWorker(s5, t, Free).(bits := s5.bits.(polling := false), poller := None) == Dequeued(s, t, Free).(owed := false);
  }

  /** A poll that finds the future pending leaves no trace but the wake paid for: the task is out of the queue,
      not complete, and free to be woken and polled again. */
  lemma PendingPollAlone(steps: Trace, mode: Mode, s: State, t: Tid)
    requires Runs(Initial(), steps, mode, s) && CanPop(s, t) && !s.bits.completed && !s.bits.cancelled && !s.bits.polling
    ensures ComesTo(Do(s, Pop(t), mode), t, false, Dequeued(s, t, Free).(owed := false))
  {
    ReachableWoken(steps, mode, s);
    PollAlone(s, t, mode);
    PollingLeaves(s, t);
    Then(Do(s, Pop(t), mode), t, false, Polling(s, t), Dequeued(s, t, Free).(owed := false));
  }

  lemma {:induction false} WakesKeep(s: State, t: Tid, mode: Mode, n: nat, s': State)
    requires Inv(s) && AckOk(s) && t in s.wakers && s' == Wakes(s, t, mode, n)
    ensures Inv(s')
    decreases n
  {
    if n > 0 && !s.wakers[t].Slept? {
      var s1 := Do(s, WakeStep(t), mode);
      StepKeeps(s, WakeStep(t), mode);
      StillThere(s, t, mode, s1);
      WakesKeep(s1, t, mode, n - 1, s');
    }
  }

  lemma StillThere(s: State, t: Tid, mode: Mode, s': State)
    requires t in s.wakers && s' == DoWake(s, t, mode)
    ensures t in s'.wakers
  {
  }

  /** A wake leads to a poll: from any reachable state in which the task is open and at rest, one wake and one
      free worker are enough to bring the worker into the future. */
  lemma WakeLeadsToPoll(steps: Trace, mode: Mode, s: State, t: Tid, u: Tid)
    requires Runs(Initial(), steps, mode, s) && CanWake(s, t) && (u !in s.workers || s.workers[u].Free?)
    requires !s.bits.completed && !s.bits.queued && !s.bits.polling && !s.bits.cancelled
    ensures Wakes(Do(s, Wake(t), mode), t, mode, 5) == Enqueued(s, t) && CanPop(Enqueued(s, t), u)
    ensures ComesTo(Do(Enqueued(s, t), Pop(u), mode), u, false, Polling(Enqueued(s, t), u))
  {
    ReachableInv(steps, mode, s);
    OpenIsCounted(s);
    var n: nat := 5;
    WakeAlone(s, t, mode, n);
    StepKeeps(s, Wake(t), mode);
    WakesKeep(Do(s, Wake(t), mode), t, mode, n, Enqueued(s, t));
    PollAlone(Enqueued(s, t), u, mode);
  }

  // ---------------------------------------------------------------------------------------
  // Completion on its own
  // ---------------------------------------------------------------------------------------

  /** A result, a complete task, the poll left and the task's own reference given up. */
  function Completed(s: State, t: Tid, pc: WorkPc): State {
    SetWorker(s, t, pc).(bits := s.bits.(completed := true, polling := false), poller := None, results := s.results + 1, refs := s.refs - 1)
  }

  /** Likewise; the scope is told if that was the last reference. */
  function Finished(s: State, t: Tid): State {
    if s.refs != 1 then Completed(s, t, Free)
    else
      Completed(s, t, Free).(bits := s.bits.(completed := true, polling := false, acked := true), calls := s.calls + 1,
        dones := if s.bits.acked then s.dones else s.dones + 1)
  }

  lemma SetAndComplete(s: State, t: Tid, choice: bool)
    requires t in s.workers && s.workers[t].SetResult?
    ensures ComesTo(s, t, choice, SetWorker(s, t, Dec).(bits := s.bits.(completed := true), results := s.results + 1))
  {
    var s1 := DoWork(s, t, choice);
    var s2 := DoWork(s1, t, choice);
    assert s2.workers == s.workers[t := Dec];
    Moves(s, t, choice, s1);
    Moves(s1, t, choice, s2);
    Then(s, t, choice, s1, s2);
  }

  lemma GiveUpAndLeave(s: State, t: Tid, choice: bool)
    requires t in s.workers && s.workers[t].Dec?
    ensures ComesTo(s, t, choice,
      SetWorker(s, t, if s.refs == 1 then Ack else Free).(
        bits := s.bits.(polling := false), poller := None, refs := s.refs - 1, ackers := if s.refs == 1 then s.ackers + {t} else s.ackers))
  {
    var s1 := DoWork(s, t, choice);
    var s2 := DoWork(s1, t, choice);
    assert s2.workers == s.workers[t := if s.refs == 1 then Ack else Free];
    Moves(s, t, choice, s1);
    Moves(s1, t, choice, s2);
    Then(s, t, choice, s1, s2);
  }

  lemma TellTheScope(s: State, t: Tid, choice: bool)
    requires t in s.workers && s.workers[t].Ack?
    ensures ComesTo(s, t, choice,
      SetWorker(s, t, Free).(bits := s.bits.(acked := true), calls := s.calls + 1,
        dones := if s.bits.acked then s.dones else s.dones + 1, ackers := s.ackers - {t}))
  {
    Moves(s, t, choice, DoWork(s, t, choice));
  }

  /** The finalizer up to the point where it is through, or about to tell the scope. */
  function Retired(s: State, t: Tid): State {
    if s.refs == 1 then Completed(s, t, Ack).(ackers := s.ackers + {t}) else Completed(s, t, Free)
  }

  lemma RetireAlone(s: State, t: Tid, choice: bool)
    requires t in s.workers && s.workers[t].SetResult?
    ensures ComesTo(s, t, choice, Retired(s, t))
  {
    var s2 := SetWorker(s, t, Dec).(bits := s.bits.(completed := true), results := s.results + 1);
    SetAndComplete(s, t, choice);
    GiveUpAndLeave(s2, t, choice);
    assert s2.workers[t := Free] == s.workers[t := Free] && s2.workers[t := Ack] == s.workers[t := Ack];
    Then(s, t, choice, s2, Retired(s, t));
  }

  lemma FinishAlone(s: State, t: Tid, choice: bool)
    requires t in s.workers && s.workers[t].SetResult? && t !in s.ackers
    ensures ComesTo(s, t, choice, Finished(s, t))
  {
    RetireAlone(s, t, choice);
    if s.refs == 1 {
      RetiredTells(s, t, choice);
      Then(s, t, choice, Retired(s, t), Finished(s, t));
    }
  }

  lemma RetiredTells(s: State, t: Tid, choice: bool)
    requires s.refs == 1 && t !in s.ackers
    ensures ComesTo(Retired(s, t), t, choice, Finished(s, t))
  {
    var s4 := Retired(s, t);
    TellTheScope(s4, t, choice);
    assert s4.workers[t := Free] == s.workers[t := Free] && s4.ackers - {t} == s.ackers;
  }

  /** A poll that finds the future done sets its result, completes the task and gives up its reference. */
  lemma ReadyPollAlone(s: State, t: Tid)
    requires t in s.workers && s.workers[t].InPoll? && t !in s.ackers
    ensures ComesTo(s, t, true, Finished(s, t))
  {
    var s1 := SetWorker(s, t, SetResult);
    Moves(s, t, true, s1);
    FinishAlone(s1, t, true);
    SamePlace(s, t, SetResult);
    Then(s, t, true, s1, Finished(s, t));
  }

  /** Where the worker was does not matter to what it leaves behind. */
  lemma SamePlace(s: State, t: Tid, pc: WorkPc)
    requires t in s.workers
    ensures Finished(SetWorker(s, t, pc), t) == Finished(s, t)
  {
    assert s.workers[t := pc][t := Free] == s.workers[t := Free];
  }

  /** A task cancelled while its future is being polled is complete after that poll, pending or not. */
  lemma CancelledDuringPoll(s: State, t: Tid)
    requires t in s.workers && s.workers[t].InPoll? && s.bits.cancelled && t !in s.ackers
    ensures ComesTo(s, t, false, Finished(s, t))
  {
    var s1 := DoWork(s, t, false);
    var s2 := SetWorker(s, t, SetResult);
    assert DoWork(s1, t, false).workers == s2.workers;
    Moves(s, t, false, s1);
    Moves(s1, t, false, s2);
    Then(s, t, false, s1, s2);
    FinishAlone(s2, t, false);
    SamePlace(s, t, SetResult);
    Then(s, t, false, s2, Finished(s, t));
  }

  lemma FreeAcksNothing(s: State, t: Tid)
    requires AckOk(s) && CanPop(s, t)
    ensures t !in s.ackers
  {
  }

  lemma CancelledAtHead(s: State, t: Tid)
    requires s.bits.cancelled && t !in s.ackers && !s.bits.polling
    ensures ComesTo(Entered(s, t, Head), t, false, Finished(s, t))
  {
    var s4, s5 := Entered(s, t, Head), Entered(s, t, SetResult);
    assert s4.workers[t := SetResult] == s5.workers;
    Moves(s4, t, false, s5);
    FinishAlone(s5, t, false);
    assert s5.workers[t := Free] == s.workers[t := Free];
    Then(s4, t, false, s5, Finished(s, t));
  }

  /** A worker that takes a cancelled task out of the queue completes it without a look at the future. */
  lemma CancelledPollAlone(s: State, t: Tid, mode: Mode)
    requires Inv(s) && AckOk(s) && CanPop(s, t) && !s.bits.completed && s.bits.cancelled && !s.bits.polling
    ensures ComesTo(Do(s, Pop(t), mode), t, false, Finished(Dequeued(s, t, EnterLoad), t))
  {
    FreeAcksNothing(s, t);
    var s2 := Dequeued(s, t, EnterLoad);
    DequeueAndEnter(s, t, false, mode);
    CancelledAtHead(s2, t);
    Then(Do(s, Pop(t), mode), t, false, Entered(s2, t, Head), Finished(s2, t));
  }

  // ---------------------------------------------------------------------------------------
  // Beside a poll
  // ---------------------------------------------------------------------------------------

  /** A worker that takes out a task which another one is polling leaves the woken bit to it, and nothing else. */
  lemma YieldAlone(s: State, t: Tid, mode: Mode)
    requires Inv(s) && CanPop(s, t) && !s.bits.completed && s.bits.polling
    ensures ComesTo(Do(s, Pop(t), mode), t, false, Dequeued(s, t, Free).(bits := s.bits.(queued := false, woken := true)))
  {
    var s0, s2 := Do(s, Pop(t), mode), Dequeued(s, t, EnterLoad);
    Dequeue(s, t, false, mode);
    LeaveTheWoken(s2, t);
    var s4 := SetWorker(s2, t, Free).(bits := s2.bits.(woken := true));
    assert s4.workers == s.workers[t := Free];
    Then(s0, t, false, s2, s4);
  }

  lemma LeaveTheWoken(s: State, t: Tid)
    requires t in s.workers && s.workers[t].EnterLoad? && !s.bits.completed && s.bits.polling
    ensures ComesTo(s, t, false, SetWorker(s, t, Free).(bits := s.bits.(woken := true)))
  {
    var s1 := DoWork(s, t, false);
    var s2 := DoWork(s1, t, false);
    assert s2.workers == s.workers[t := Free];
    Moves(s, t, false, s1);
    Moves(s1, t, false, s2);
    Then(s, t, false, s1, s2);
  }
}
