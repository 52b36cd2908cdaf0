/** The header of a send task as a transition system: any number of wakers and workers interleave,
    one atomic access at a time. */
module TaskHeader {
  import opened Prelude

  /** The bits of the state word that change; the others are set before the task is shared. */
  datatype Bits = Bits(completed: bool, queued: bool, polling: bool, woken: bool, cancelled: bool, acked: bool)

  type Tid = nat

  /** Whether marking the task queued and counting the reference are one access, or two as in the code. */
  datatype Mode = Together | Apart

  /** A call of `enqueue_send`. */
  datatype WakePc =
    | Check
    | Mark
    | MarkCas(seen: Bits)
    | AddRef
    | Push
    | Slept

  /** A worker with the task in hand: `poll_send_task` and everything it calls. */
  datatype WorkPc =
    | Clear
    | Sub
    | EnterLoad
    | Enter(seen: Bits)
    | Head
    | InPoll
    | PendCheck
    | ExitLoad
    | Exit(seen: Bits)
    | SetResult
    | Complete
    | Dec
    | ExitPoll(last: bool)
    | Ack
    | Free

  /** Who holds the task reference that the queued bit stands for; auxiliary. */
  datatype Token = AtWaker(t: Tid) | InQueue | AtWorker(t: Tid)

  /** The fields from `poller` on are auxiliary; `calls` counts the calls of `acknowledge_completion`,
      `dones` those that went on to tell the scope, `late` the marks counted only after the count had
      reached zero. */
  datatype State = State(
    bits: Bits, refs: int, queue: int, wakers: map<Tid, WakePc>, workers: map<Tid, WorkPc>,
    poller: Option<Tid>, token: Option<Token>, clearing: set<Tid>, ackers: set<Tid>,
    results: nat, calls: nat, dones: nat, late: nat, owed: bool)

  function Initial(): State {
    State(Bits(false, false, false, false, false, false), 1, 0, map[], map[], None, None, {}, {}, 0, 0, 0, 0, false)
  }

  // ---------------------------------------------------------------------------------------
  // Steps
  // ---------------------------------------------------------------------------------------

  /** `choice` is what the worker cannot decide itself: whether the scope is cancelled, and whether
      the future is done (or panicked). */
  datatype Step =
    | Wake(t: Tid)
    | WakeStep(t: Tid)
    | Pop(t: Tid)
    | WorkStep(t: Tid, choice: bool)
    | Cancel

  predicate Enabled(s: State, step: Step) {
    match step
    case Wake(t) => t !in s.wakers || s.wakers[t].Slept?
    case WakeStep(t) => t in s.wakers && !s.wakers[t].Slept?
    case Pop(t) => s.queue > 0 && (t !in s.workers || s.workers[t].Free?)
    case WorkStep(t, _) => t in s.workers && !s.workers[t].Free?
    case Cancel => true
  }

  function SetWaker(s: State, t: Tid, pc: WakePc): State {
    s.(wakers := s.wakers[t := pc])
  }

  function SetWorker(s: State, t: Tid, pc: WorkPc): State {
    s.(workers := s.workers[t := pc])
  }

  /** A wake takes effect: unless the task is complete, a poll is owed. */
  function Owe(s: State): State {
    s.(owed := true)
  }

  function DoWake(s: State, t: Tid, mode: Mode): State
    requires t in s.wakers
  {
    match s.wakers[t]
    case Check => SetWaker(s, t, if s.bits.completed then Slept else Mark)
    case Mark =>
      if s.bits.queued || s.bits.completed then SetWaker(Owe(s), t, Slept) else SetWaker(s, t, MarkCas(s.bits))
    case MarkCas(b) =>
      if s.bits != b then SetWaker(s, t, Mark)
      else
        var s' := Owe(s).(bits := b.(queued := true), token := Some(AtWaker(t)));
        if mode.Apart? then SetWaker(s', t, AddRef) else SetWaker(s', t, Push).(refs := s.refs + 1)
    case AddRef => SetWaker(s, t, Push).(refs := s.refs + 1, late := if s.refs == 0 then s.late + 1 else s.late)
    case Push => SetWaker(s, t, Slept).(queue := s.queue + 1, token := Some(InQueue))
    case Slept => s
  }

  /** Gives up one reference; the last one acknowledges. */
  function Release(s: State, t: Tid): State {
    s.(refs := s.refs - 1, ackers := if s.refs == 1 then s.ackers + {t} else s.ackers)
  }

  function DoWork(s: State, t: Tid, choice: bool): (s': State)
    requires t in s.workers
    ensures t in s'.workers && s'.workers == s.workers[t := s'.workers[t]] && s'.wakers == s.wakers
  {
    match s.workers[t]
    case Clear =>
      var s' := s.(bits := s.bits.(queued := false), token := None);
      if s.bits.queued then SetWorker(s', t, Sub).(clearing := s.clearing + {t}) else SetWorker(s', t, EnterLoad)
    case Sub =>
      SetWorker(Release(s, t), t, if s.refs == 1 then Ack else EnterLoad).(clearing := s.clearing - {t})
    case EnterLoad => SetWorker(s, t, Enter(s.bits))
    case Enter(b) =>
      if b.completed then SetWorker(s, t, Free)
      else if s.bits != b then SetWorker(s, t, Enter(s.bits))
      else if b.polling then SetWorker(s, t, Free).(bits := b.(woken := true))
      else SetWorker(s, t, Head).(bits := b.(polling := true), poller := Some(t))
    case Head =>
      if s.bits.cancelled || choice then SetWorker(s, t, SetResult) else SetWorker(s, t, InPoll).(owed := false)
    case InPoll => SetWorker(s, t, if choice then SetResult else PendCheck)
    case PendCheck => SetWorker(s, t, if s.bits.cancelled || choice then SetResult else ExitLoad)
    case ExitLoad => SetWorker(s, t, Exit(s.bits))
    case Exit(b) =>
      if s.bits != b then SetWorker(s, t, Exit(s.bits))
      else if b.woken then SetWorker(s, t, Head).(bits := b.(woken := false, polling := true))
      else SetWorker(s, t, Free).(bits := b.(polling := false), poller := None)
    case SetResult => SetWorker(s, t, Complete).(results := s.results + 1)
    case Complete => SetWorker(s, t, Dec).(bits := s.bits.(completed := true))
    case Dec => SetWorker(Release(s, t), t, ExitPoll(s.refs == 1))
    case ExitPoll(last) =>
      SetWorker(s, t, if last then Ack else Free).(bits := s.bits.(polling := false), poller := None)
    case Ack =>
      SetWorker(s, t, Free).(bits := s.bits.(acked := true), calls := s.calls + 1,
        dones := if s.bits.acked then s.dones else s.dones + 1, ackers := s.ackers - {t})
    case Free => s
  }

  function Do(s: State, step: Step, mode: Mode): State
    requires Enabled(s, step)
  {
    match step
    case Wake(t) => SetWaker(s, t, Check)
    case WakeStep(t) => DoWake(s, t, mode)
    case Pop(t) => SetWorker(s, t, Clear).(queue := s.queue - 1, token := Some(AtWorker(t)))
    case WorkStep(t, choice) => DoWork(s, t, choice)
    case Cancel => s.(bits := s.bits.(cancelled := true))
  }

  // ---------------------------------------------------------------------------------------
  // Invariant
  // ---------------------------------------------------------------------------------------

  /** Between entering and leaving the poll state. */
  predicate Inside(pc: WorkPc) {
    pc.Head? || pc.InPoll? || pc.PendCheck? || pc.ExitLoad? || pc.Exit? || pc.SetResult? || pc.Complete? || pc.Dec? || pc.ExitPoll?
  }

  /** Will look at the state word and take up, pass on or find settled any wake there is. */
  predicate Entering(pc: WorkPc) {
    pc.Sub? || pc.EnterLoad? || pc.Enter?
  }

  predicate Acking(pc: WorkPc) {
    pc.Ack? || (pc.ExitPoll? && pc.last)
  }

  /** Where the poller is. */
  function PollerPc(poller: Option<Tid>, workers: map<Tid, WorkPc>): WorkPc {
    if poller.Some? && poller.value in workers then workers[poller.value] else Free
  }

  predicate WorkerOk(t: Tid, pc: WorkPc, poller: Option<Tid>, token: Option<Token>, clearing: set<Tid>, completed: bool) {
    && (Inside(pc) <==> poller == Some(t))
    && (pc.Clear? <==> token == Some(AtWorker(t)))
    && (pc.Sub? <==> t in clearing)
    && (pc.Enter? && pc.seen.completed ==> completed)
  }

  predicate WakerOk(t: Tid, pc: WakePc, token: Option<Token>) {
    && (pc.Push? || pc.AddRef? <==> token == Some(AtWaker(t)))
    && (pc.MarkCas? ==> !pc.seen.queued && !pc.seen.completed)
  }

  /** One worker at most is inside, and it alone sets the result and completes the task. */
  predicate PollOk(bits: Bits, poller: Option<Tid>, pc: WorkPc, results: nat) {
    && (bits.polling <==> poller.Some?)
    && (poller.Some? ==> (bits.completed <==> pc.Dec? || pc.ExitPoll?))
    && results == (if bits.completed || pc.Complete? then 1 else 0)
  }

  /** The queued bit stands for one reference to the task, on its way to the queue, in it, or just
      out of it. */
  predicate TokenOk(bits: Bits, token: Option<Token>, queue: int) {
    && (bits.queued <==> token.Some?)
    && queue == (if token == Some(InQueue) then 1 else 0)
  }

  /** Everyone the auxiliary fields name is there. */
  predicate NamesOk(s: State) {
    && (s.poller.Some? ==> s.poller.value in s.workers)
    && (s.token.Some? && s.token.value.AtWaker? ==> s.token.value.t in s.wakers)
    && (s.token.Some? && s.token.value.AtWorker? ==> s.token.value.t in s.workers)
    && (forall t :: t in s.clearing ==> t in s.workers)
  }

  /** A wake not yet followed by a poll is in somebody's hands. */
  ghost predicate OwedOk(owed: bool, bits: Bits, pc: WorkPc, workers: map<Tid, WorkPc>) {
    owed ==> (
      || bits.completed || bits.queued || (bits.polling && bits.woken)
      || pc.Head? || pc.SetResult? || pc.Complete?
      || SomeoneEntering(workers))
  }

  ghost predicate SomeoneEntering(workers: map<Tid, WorkPc>) {
    exists t :: t in workers && Entering(workers[t])
  }

  /** The finalizer has given up the task's own reference. */
  predicate Finalized(bits: Bits, pc: WorkPc) {
    bits.completed && !pc.Dec?
  }

  /** A waker has marked the task queued and not yet counted it. */
  predicate Uncounted(token: Option<Token>, wakers: map<Tid, WakePc>) {
    token.Some? && token.value.AtWaker? && token.value.t in wakers && wakers[token.value.t].AddRef?
  }

  /** The reference count: the task's own reference, the queue's, and those about to be given up. */
  predicate RefsOk(refs: int, finalized: bool, counted: bool, pending: nat) {
    refs == (if finalized then 0 else 1) + (if counted then 1 else 0) + pending
  }

  /** What holds whether marking and counting are one access or two. */
  ghost predicate Inv(s: State) {
    var pc := PollerPc(s.poller, s.workers);
    && NamesOk(s) && PollOk(s.bits, s.poller, pc, s.results) && TokenOk(s.bits, s.token, s.queue)
    && OwedOk(s.owed, s.bits, pc, s.workers)
    && RefsOk(s.refs, Finalized(s.bits, pc), s.bits.queued && !Uncounted(s.token, s.wakers), |s.clearing|)
    && WorkersOk(s)
    && (forall t :: t in s.wakers ==> WakerOk(t, s.wakers[t], s.token))
  }

  /** Acknowledgements made or under way: one call for each time the count reached zero, and the first
      of them tells the scope. */
  ghost predicate AckOk(s: State) {
    && s.calls + |s.ackers| == s.late + (if s.refs == 0 then 1 else 0)
    && (s.bits.acked <==> s.calls > 0) && s.dones == (if s.bits.acked then 1 else 0)
    && (s.late > 0 ==> s.late == 1 && s.bits.completed && !Uncounted(s.token, s.wakers))
    && (forall t :: t in s.ackers ==> t in s.workers)
    && (forall t :: t in s.workers ==> (Acking(s.workers[t]) <==> t in s.ackers))
  }

  /** What one access for marking and counting excludes. */
  ghost predicate Joint(s: State) {
    s.late == 0 && forall t :: t in s.wakers ==> !s.wakers[t].AddRef?
  }

  lemma InitialInv()
    ensures Inv(Initial()) && AckOk(Initial()) && Joint(Initial())
  {
  }

  /** What the auxiliary fields say about everyone but `t` is the same in both states. */
  ghost predicate SameForOthers(s: State, s': State, t: Tid) {
    && (s.bits.completed ==> s'.bits.completed)
    && (forall u :: u != t ==> (s.poller == Some(u) <==> s'.poller == Some(u)))
    && (forall u :: u != t ==> (s.token == Some(AtWorker(u)) <==> s'.token == Some(AtWorker(u))))
    && (forall u :: u != t ==> (u in s.clearing <==> u in s'.clearing))
  }

  predicate OkAt(s: State, t: Tid)
    requires t in s.workers
  {
    WorkerOk(t, s.workers[t], s.poller, s.token, s.clearing, s.bits.completed)
  }

  ghost predicate WorkersOk(s: State) {
    forall t :: t in s.workers ==> OkAt(s, t)
  }

  /** One worker moves: the others keep what is said of them, and so does whoever is about to enter,
      unless it is the one that moves. */
  lemma WorkerMoves(s: State, t: Tid, s': State)
    requires WorkersOk(s) && t in s'.workers && s'.workers == s.workers[t := s'.workers[t]]
    requires SameForOthers(s, s', t) && OkAt(s', t)
    ensures WorkersOk(s')
    ensures SomeoneEntering(s.workers) && (t in s.workers && Entering(s.workers[t]) ==> Entering(s'.workers[t])) ==>
      SomeoneEntering(s'.workers)
  {
    forall u | u in s'.workers
      ensures OkAt(s', u)
    {
      assert u != t ==> OkAt(s, u);
    }
    if SomeoneEntering(s.workers) && (t in s.workers && Entering(s.workers[t]) ==> Entering(s'.workers[t])) {
      var u :| u in s.workers && Entering(s.workers[u]);
      assert u in s'.workers && Entering(s'.workers[u]);
    }
  }

  /** A waker moves: the workers keep what is said of them. */
  lemma WakerMoves(s: State, s': State)
    requires WorkersOk(s) && s'.workers == s.workers && s'.poller == s.poller && s'.clearing == s.clearing
    requires s'.bits.completed == s.bits.completed
    requires forall u :: s.token == Some(AtWorker(u)) <==> s'.token == Some(AtWorker(u))
    ensures WorkersOk(s')
  {
    forall u | u in s'.workers
      ensures OkAt(s', u)
    {
      assert OkAt(s, u);
    }
  }

  lemma CheckKeeps(s: State, t: Tid, mode: Mode, s': State)
    requires Inv(s) && t in s.wakers && s.wakers[t].Check? && s' == DoWake(s, t, mode)
    ensures Inv(s')
  {
    assert WakerOk(t, s.wakers[t], s.token);
    WakerMoves(s, s');
  }

  lemma MarkKeeps(s: State, t: Tid, mode: Mode, s': State)
    requires Inv(s) && t in s.wakers && s.wakers[t].Mark? && s' == DoWake(s, t, mode)
    ensures Inv(s')
  {
    assert WakerOk(t, s.wakers[t], s.token);
    WakerMoves(s, s');
  }

  lemma MarkRetryKeeps(s: State, t: Tid, mode: Mode, s': State)
    requires Inv(s) && t in s.wakers && s.wakers[t].MarkCas? && s.bits != s.wakers[t].seen && s' == DoWake(s, t, mode)
    ensures Inv(s')
  {
    assert WakerOk(t, s.wakers[t], s.token);
    WakerMoves(s, s');
  }

  lemma MarkWinKeeps(s: State, t: Tid, mode: Mode, s': State)
    requires Inv(s) && t in s.wakers && s.wakers[t].MarkCas? && s.bits == s.wakers[t].seen && s' == DoWake(s, t, mode)
    ensures Inv(s')
  {
    assert WakerOk(t, s.wakers[t], s.token);
    WakerMoves(s, s');
  }

  lemma AddRefKeeps(s: State, t: Tid, mode: Mode, s': State)
    requires Inv(s) && t in s.wakers && s.wakers[t].AddRef? && s' == DoWake(s, t, mode)
    ensures Inv(s')
  {
    assert WakerOk(t, s.wakers[t], s.token);
    WakerMoves(s, s');
  }

  lemma PushKeeps(s: State, t: Tid, mode: Mode, s': State)
    requires Inv(s) && t in s.wakers && s.wakers[t].Push? && s' == DoWake(s, t, mode)
    ensures Inv(s')
  {
    assert WakerOk(t, s.wakers[t], s.token);
    WakerMoves(s, s');
  }

  lemma PopKeeps(s: State, t: Tid, s': State)
    requires Inv(s) && Enabled(s, Pop(t)) && s' == Do(s, Pop(t), Together)
    ensures Inv(s')
  {
    assert t in s.workers ==> OkAt(s, t);
    WorkerMoves(s, t, s');
  }

  lemma ClearKeeps(s: State, t: Tid, choice: bool, s': State)
    requires Inv(s) && t in s.workers && s.workers[t].Clear? && s' == DoWork(s, t, choice)
    ensures Inv(s')
  {
    assert OkAt(s, t);
    ClearedKeeps(s, t, Cleared(s, t));
  }

  function Cleared(s: State, t: Tid): State {
    s.(bits := s.bits.(queued := false), token := None, workers := s.workers[t := Sub], clearing := s.clearing + {t})
  }

  lemma ClearedKeeps(s: State, t: Tid, s': State)
    requires Inv(s) && t in s.workers && s.workers[t].Clear? && s' == Cleared(s, t)
    ensures Inv(s')
  {
    assert OkAt(s, t) && t !in s.clearing;
    WorkerMoves(s, t, s');
    assert SomeoneEntering(s'.workers) by {
      assert Entering(s'.workers[t]);
    }
  }

  lemma SubKeeps(s: State, t: Tid, choice: bool, s': State)
    requires Inv(s) && t in s.workers && s.workers[t].Sub? && s' == DoWork(s, t, choice)
    ensures Inv(s')
  {
    assert OkAt(s, t);
    WorkerMoves(s, t, s');
  }

  lemma EnterLoadKeeps(s: State, t: Tid, choice: bool, s': State)
    requires Inv(s) && t in s.workers && s.workers[t].EnterLoad? && s' == DoWork(s, t, choice)
    ensures Inv(s')
  {
    assert OkAt(s, t);
    WorkerMoves(s, t, s');
  }

  lemma EnterRetryKeeps(s: State, t: Tid, choice: bool, s': State)
    requires Inv(s) && t in s.workers && s.workers[t].Enter? && (s.workers[t].seen.completed || s.bits != s.workers[t].seen) && s' == DoWork(s, t, choice)
    ensures Inv(s')
  {
    assert OkAt(s, t);
    WorkerMoves(s, t, s');
  }

  lemma EnterYieldKeeps(s: State, t: Tid, choice: bool, s': State)
    requires Inv(s) && t in s.workers && s.workers[t].Enter? && s.bits == s.workers[t].seen && !s.bits.completed && s.bits.polling && s' == DoWork(s, t, choice)
    ensures Inv(s')
  {
    assert OkAt(s, t);
    WorkerMoves(s, t, s');
  }

  lemma EnterProceedKeeps(s: State, t: Tid, choice: bool, s': State)
    requires Inv(s) && t in s.workers && s.workers[t].Enter? && s.bits == s.workers[t].seen && !s.bits.completed && !s.bits.polling && s' == DoWork(s, t, choice)
    ensures Inv(s')
  {
    assert OkAt(s, t);
    WorkerMoves(s, t, s');
  }

  lemma HeadKeeps(s: State, t: Tid, choice: bool, s': State)
    requires Inv(s) && t in s.workers && s.workers[t].Head? && s' == DoWork(s, t, choice)
    ensures Inv(s')
  {
    assert OkAt(s, t);
    WorkerMoves(s, t, s');
  }

  lemma InPollKeeps(s: State, t: Tid, choice: bool, s': State)
    requires Inv(s) && t in s.workers && (s.workers[t].InPoll? || s.workers[t].PendCheck?) && s' == DoWork(s, t, choice)
    ensures Inv(s')
  {
    assert OkAt(s, t);
    WorkerMoves(s, t, s');
  }

  lemma ExitRetryKeeps(s: State, t: Tid, choice: bool, s': State)
    requires Inv(s) && t in s.workers && (s.workers[t].ExitLoad? || (s.workers[t].Exit? && s.bits != s.workers[t].seen)) && s' == DoWork(s, t, choice)
    ensures Inv(s')
  {
    assert OkAt(s, t);
    WorkerMoves(s, t, s');
  }

  lemma ExitAgainKeeps(s: State, t: Tid, choice: bool, s': State)
    requires Inv(s) && t in s.workers && s.workers[t].Exit? && s.bits == s.workers[t].seen && s.bits.woken && s' == DoWork(s, t, choice)
    ensures Inv(s')
  {
    assert OkAt(s, t);
    WorkerMoves(s, t, s');
  }

  lemma ExitLeaveKeeps(s: State, t: Tid, choice: bool, s': State)
    requires Inv(s) && t in s.workers && s.workers[t].Exit? && s.bits == s.workers[t].seen && !s.bits.woken && s' == DoWork(s, t, choice)
    ensures Inv(s')
  {
    assert OkAt(s, t);
    WorkerMoves(s, t, s');
  }

  lemma SetResultKeeps(s: State, t: Tid, choice: bool, s': State)
    requires Inv(s) && t in s.workers && (s.workers[t].SetResult? || s.workers[t].Complete?) && s' == DoWork(s, t, choice)
    ensures Inv(s')
  {
    assert OkAt(s, t);
    WorkerMoves(s, t, s');
  }

  lemma DecKeeps(s: State, t: Tid, choice: bool, s': State)
    requires Inv(s) && t in s.workers && s.workers[t].Dec? && s' == DoWork(s, t, choice)
    ensures Inv(s')
  {
    assert OkAt(s, t);
    WorkerMoves(s, t, s');
  }

  lemma ExitPollKeeps(s: State, t: Tid, choice: bool, s': State)
    requires Inv(s) && t in s.workers && s.workers[t].ExitPoll? && s' == DoWork(s, t, choice)
    ensures Inv(s')
  {
    assert OkAt(s, t);
    WorkerMoves(s, t, s');
  }

  lemma AckKeeps(s: State, t: Tid, choice: bool, s': State)
    requires Inv(s) && t in s.workers && s.workers[t].Ack? && s' == DoWork(s, t, choice)
    ensures Inv(s')
  {
    assert OkAt(s, t);
    WorkerMoves(s, t, s');
  }

  // ---------------------------------------------------------------------------------------
  // Acknowledgement
  // ---------------------------------------------------------------------------------------

  /** `t` gives up one reference; if it is the last one, `t` is to acknowledge. */
  predicate Releases(s: State, s': State, t: Tid) {
    && s'.refs == s.refs - 1 && s'.ackers == (if s.refs == 1 then s.ackers + {t} else s.ackers)
    && s'.calls == s.calls && s'.dones == s.dones && s'.bits == s.bits && s'.late == s.late
    && s'.wakers == s.wakers && s'.token == s.token
    && t in s.workers && t in s'.workers && s'.workers == s.workers[t := s'.workers[t]]
    && !Acking(s.workers[t]) && (Acking(s'.workers[t]) <==> s.refs == 1)
  }

  lemma ReleaseEffects(s: State, t: Tid, choice: bool, s': State)
    requires t in s.workers && (s.workers[t].Sub? || s.workers[t].Dec?) && s' == DoWork(s, t, choice)
    ensures Releases(s, s', t)
  {
    match s.workers[t] {
      case Sub =>
      case Dec =>
    }
  }

  lemma ReleaserHasAReference(s: State, t: Tid)
    requires Inv(s) && t in s.workers && (s.workers[t].Sub? || s.workers[t].Dec?)
    ensures s.refs >= 1
  {
    assert OkAt(s, t);
    assert t in s.clearing ==> |s.clearing| > 0;
  }

  lemma ReleaseAck(s: State, t: Tid, s': State)
    requires AckOk(s) && Releases(s, s', t) && s.refs >= 1
    ensures AckOk(s')
  {
    assert t !in s.ackers;
  }

  lemma AckAck(s: State, t: Tid, choice: bool, s': State)
    requires AckOk(s) && t in s.workers && s' == DoWork(s, t, choice)
    requires s.workers[t].Ack? || s.workers[t].ExitPoll?
    ensures AckOk(s')
  {
  }

  /** Every other step of a worker leaves the count and the acknowledgements alone. */
  lemma WorkEffects(s: State, t: Tid, choice: bool, s': State)
    requires t in s.workers && s' == DoWork(s, t, choice)
    requires !s.workers[t].Sub? && !s.workers[t].Dec? && !s.workers[t].Ack? && !s.workers[t].ExitPoll?
    ensures AckUntouched(s, s', t)
  {
    match s.workers[t] {
      case Clear =>
      case EnterLoad =>
      case Enter(_) =>
      case Head =>
      case InPoll =>
      case PendCheck =>
      case ExitLoad =>
      case Exit(_) =>
      case SetResult =>
      case Complete =>
      case Free =>
    }
  }

  predicate AckUntouched(s: State, s': State, t: Tid) {
    && s'.refs == s.refs && s'.ackers == s.ackers && s'.calls == s.calls && s'.dones == s.dones && s'.bits.acked == s.bits.acked && s'.late == s.late && s'.wakers == s.wakers
    && (s.bits.completed ==> s'.bits.completed) && (s'.token == s.token || s'.token.None?)
    && t in s.workers && t in s'.workers && s'.workers == s.workers[t := s'.workers[t]]
    && !Acking(s.workers[t]) && !Acking(s'.workers[t])
  }

  lemma OtherAck(s: State, t: Tid, s': State)
    requires AckOk(s) && AckUntouched(s, s', t)
    ensures AckOk(s')
  {
  }

  lemma MarkAck(s: State, t: Tid, mode: Mode, s': State)
    requires Inv(s) && AckOk(s) && t in s.wakers && s.wakers[t].MarkCas? && s' == DoWake(s, t, mode)
    ensures AckOk(s')
  {
    assert WakerOk(t, s.wakers[t], s.token);
  }

  lemma CountAck(s: State, t: Tid, mode: Mode, s': State)
    requires Inv(s) && AckOk(s) && t in s.wakers && s.wakers[t].AddRef? && s' == DoWake(s, t, mode)
    ensures AckOk(s')
  {
    assert WakerOk(t, s.wakers[t], s.token);
    assert Uncounted(s.token, s.wakers);
  }

  lemma QuietWakeAck(s: State, t: Tid, mode: Mode, s': State)
    requires AckOk(s) && t in s.wakers && !s.wakers[t].MarkCas? && !s.wakers[t].AddRef? && s' == DoWake(s, t, mode)
    ensures AckOk(s')
  {
    match s.wakers[t] {
      case Check =>
      case Mark =>
      case Push =>
      case Slept =>
    }
  }

  lemma WakeJoint(s: State, t: Tid, s': State)
    requires Joint(s) && t in s.wakers && s' == DoWake(s, t, Together)
    ensures Joint(s')
  {
    match s.wakers[t] {
      case Check =>
      case Mark =>
      case MarkCas(_) =>
      case Push =>
      case Slept =>
    }
  }

  lemma WorkKeeps(s: State, t: Tid, choice: bool, s': State)
    requires Inv(s) && AckOk(s) && Enabled(s, WorkStep(t, choice)) && s' == DoWork(s, t, choice)
    ensures Inv(s')
    ensures AckOk(s')
  {
    var pc := s.workers[t];
    if pc.Sub? || pc.Dec? {
      ReleaseEffects(s, t, choice, s');
      ReleaserHasAReference(s, t);
      ReleaseAck(s, t, s');
    } else if pc.Ack? || pc.ExitPoll? {
      AckAck(s, t, choice, s');
    } else {
      WorkEffects(s, t, choice, s');
      OtherAck(s, t, s');
    }
    match pc {
      case Clear => ClearKeeps(s, t, choice, s');
      case Sub => SubKeeps(s, t, choice, s');
      case EnterLoad => EnterLoadKeeps(s, t, choice, s');
      case Enter(seen) =>
        if seen.completed || s.bits != seen {
          EnterRetryKeeps(s, t, choice, s');
        } else if s.bits.polling {
          EnterYieldKeeps(s, t, choice, s');
        } else {
          EnterProceedKeeps(s, t, choice, s');
        }
      case Head => HeadKeeps(s, t, choice, s');
      case InPoll => InPollKeeps(s, t, choice, s');
      case PendCheck => InPollKeeps(s, t, choice, s');
      case ExitLoad => ExitRetryKeeps(s, t, choice, s');
      case Exit(seen) =>
        if s.bits != seen {
          ExitRetryKeeps(s, t, choice, s');
        } else if s.bits.woken {
          ExitAgainKeeps(s, t, choice, s');
        } else {
          ExitLeaveKeeps(s, t, choice, s');
        }
      case SetResult => SetResultKeeps(s, t, choice, s');
      case Complete => SetResultKeeps(s, t, choice, s');
      case Dec => DecKeeps(s, t, choice, s');
      case ExitPoll(_) => ExitPollKeeps(s, t, choice, s');
      case Ack => AckKeeps(s, t, choice, s');
    }
  }

  lemma WakeKeeps(s: State, t: Tid, mode: Mode, s': State)
    requires Inv(s) && AckOk(s) && Enabled(s, WakeStep(t)) && s' == DoWake(s, t, mode)
    ensures Inv(s')
    ensures AckOk(s')
    ensures Joint(s) && mode.Together? ==> Joint(s')
  {
    if s.wakers[t].MarkCas? {
      MarkAck(s, t, mode, s');
    } else if s.wakers[t].AddRef? {
      CountAck(s, t, mode, s');
    } else {
      QuietWakeAck(s, t, mode, s');
    }
    if Joint(s) && mode.Together? {
      WakeJoint(s, t, s');
    }
    match s.wakers[t] {
      case Check => CheckKeeps(s, t, mode, s');
      case Mark => MarkKeeps(s, t, mode, s');
      case MarkCas(seen) =>
        if s.bits != seen {
          MarkRetryKeeps(s, t, mode, s');
        } else {
          MarkWinKeeps(s, t, mode, s');
        }
      case AddRef => AddRefKeeps(s, t, mode, s');
      case Push => PushKeeps(s, t, mode, s');
    }
  }

  lemma StartKeeps(s: State, t: Tid, s': State)
    requires Inv(s) && AckOk(s) && Enabled(s, Wake(t)) && s' == SetWaker(s, t, Check)
    ensures Inv(s')
    ensures AckOk(s')
  {
    assert t in s.wakers ==> WakerOk(t, s.wakers[t], s.token);
    assert WorkersOk(s');
  }

  lemma CancelKeeps(s: State, s': State)
    requires Inv(s) && AckOk(s) && s' == s.(bits := s.bits.(cancelled := true))
    ensures Inv(s')
    ensures AckOk(s')
  {
    assert WorkersOk(s');
  }

  lemma PopAck(s: State, t: Tid, s': State)
    requires AckOk(s) && Enabled(s, Pop(t)) && s' == Do(s, Pop(t), Together)
    ensures AckOk(s')
  {
  }

  lemma WorkJoint(s: State, t: Tid, choice: bool, s': State)
    requires t in s.workers && s' == DoWork(s, t, choice)
    ensures Joint(s) ==> Joint(s')
  {
    if !s.workers[t].Sub? && !s.workers[t].Dec? && !s.workers[t].Ack? && !s.workers[t].ExitPoll? {
      WorkEffects(s, t, choice, s');
    }
  }

  lemma StepKeeps(s: State, step: Step, mode: Mode)
    requires Inv(s) && AckOk(s) && Enabled(s, step)
    ensures Inv(Do(s, step, mode))
    ensures AckOk(Do(s, step, mode))
    ensures Joint(s) && mode.Together? ==> Joint(Do(s, step, mode))
  {
    var s' := Do(s, step, mode);
    match step {
      case Wake(t) => StartKeeps(s, t, s');
      case WakeStep(t) => WakeKeeps(s, t, mode, s');
      case Pop(t) =>
        PopKeeps(s, t, s');
        PopAck(s, t, s');
      case WorkStep(t, choice) =>
        WorkKeeps(s, t, choice, s');
        WorkJoint(s, t, choice, s');
      case Cancel => CancelKeeps(s, s');
    }
  }

  // ---------------------------------------------------------------------------------------
  // Whole runs
  // ---------------------------------------------------------------------------------------

  /** A finite run. */
  datatype Trace = Nil | Cons(step: Step, rest: Trace)

  /** `steps` lead from `s` to `s'`. */
  ghost predicate Runs(s: State, steps: Trace, mode: Mode, s': State)
    decreases steps
  {
    match steps
    case Nil => s' == s
    case Cons(step, rest) => Enabled(s, step) && Runs(Do(s, step, mode), rest, mode, s')
  }

  lemma {:induction false} RunKeeps(s: State, steps: Trace, mode: Mode, s': State)
    requires Inv(s) && AckOk(s) && Runs(s, steps, mode, s')
    ensures Inv(s') && AckOk(s')
    ensures Joint(s) && mode.Together? ==> Joint(s')
    decreases steps
  {
    match steps {
      case Nil =>
      case Cons(step, rest) =>
        StepKeeps(s, step, mode);
        RunKeeps(Do(s, step, mode), rest, mode, s');
    }
  }

  lemma ReachableInv(steps: Trace, mode: Mode, s: State)
    requires Runs(Initial(), steps, mode, s)
    ensures Inv(s) && AckOk(s)
    ensures mode.Together? ==> Joint(s)
  {
    InitialInv();
    RunKeeps(Initial(), steps, mode, s);
  }

  /** At most one worker is ever inside the poll, and none is in the future once the task is complete
      or its result set. */
  lemma PollsExclude(steps: Trace, mode: Mode, s: State, t: Tid, u: Tid)
    requires Runs(Initial(), steps, mode, s) && t in s.workers && u in s.workers && Inside(s.workers[t])
    ensures Inside(s.workers[u]) ==> u == t
    ensures s.workers[t].InPoll? ==> !s.bits.completed && s.results == 0
  {
    ReachableInv(steps, mode, s);
    assert OkAt(s, t) && OkAt(s, u);
  }

  /** The result is set at most once, and exactly once by the time the task is complete; until then only
      the worker about to complete it has set it. */
  lemma ResultIsSetOnce(steps: Trace, mode: Mode, s: State)
    requires Runs(Initial(), steps, mode, s)
    ensures s.results <= 1 && (s.bits.completed ==> s.results == 1)
    ensures s.results == 1 && !s.bits.completed ==> exists t :: t in s.workers && s.workers[t].Complete?
  {
    ReachableInv(steps, mode, s);
    if s.results == 1 && !s.bits.completed {
      assert s.workers[s.poller.value].Complete?;
    }
  }

  /** No worker enters the poll of a complete task, nor the future from within the poll. */
  lemma NoneEntersAfterCompletion(steps: Trace, mode: Mode, s: State, t: Tid, choice: bool, s': State)
    requires Runs(Initial(), steps, mode, s) && s.bits.completed
    requires t in s.workers && s' == DoWork(s, t, choice)
    ensures !s'.workers[t].InPoll? && (Inside(s'.workers[t]) ==> Inside(s.workers[t]))
  {
    ReachableInv(steps, mode, s);
    assert OkAt(s, t);
    EntryNeedsAnOpenTask(s, t, choice, s');
  }

  lemma EntryNeedsAnOpenTask(s: State, t: Tid, choice: bool, s': State)
    requires t in s.workers && s' == DoWork(s, t, choice) && s.bits.completed && !s.workers[t].Head? && !s.workers[t].InPoll?
    ensures !s'.workers[t].InPoll? && (Inside(s'.workers[t]) ==> Inside(s.workers[t]))
  {
    match s.workers[t] {
      case Clear =>
      case Sub =>
      case EnterLoad =>
      case Enter(_) =>
      case PendCheck =>
      case ExitLoad =>
      case Exit(_) =>
      case SetResult =>
      case Complete =>
      case Dec =>
      case ExitPoll(_) =>
      case Ack =>
      case Free =>
    }
  }

  /** Nobody has anything left to do with the task. */
  predicate Quiet(s: State) {
    && s.queue == 0
    && (forall t :: t in s.wakers ==> s.wakers[t].Slept?)
    && (forall t :: t in s.workers ==> s.workers[t].Free?)
  }

  /** In every reachable state a wake that no poll has followed yet is carried by somebody: the queued
      bit, the woken bit under a running poll, a worker about to enter, or the poller at the head of
      its loop or about to complete the task. */
  lemma OwedWakeIsCarried(steps: Trace, mode: Mode, s: State)
    requires Runs(Initial(), steps, mode, s) && s.owed && !s.bits.completed
    ensures || s.bits.queued || (s.bits.polling && s.bits.woken)
            || (exists t :: t in s.workers && (
                  || Entering(s.workers[t])
                  || s.workers[t].Head? || s.workers[t].SetResult? || s.workers[t].Complete?))
  {
    ReachableInv(steps, mode, s);
    var pc := PollerPc(s.poller, s.workers);
    if pc.Head? || pc.SetResult? || pc.Complete? {
      assert s.workers[s.poller.value] == pc;
    }
  }

  /** So every wake before completion is followed by a poll that starts later, or by completion: when
      nothing is left to run, no wake is owed a poll. */
  lemma NoWakeIsLost(steps: Trace, mode: Mode, s: State)
    requires Runs(Initial(), steps, mode, s) && Quiet(s)
    ensures s.owed ==> s.bits.completed
  {
    ReachableInv(steps, mode, s);
    QuietHoldsNothing(s);
    if s.owed && !s.bits.completed {
      OwedWakeIsCarried(steps, mode, s);
    }
  }

  /** Over every run, however the accesses are grouped, the scope is told at most once and only of a
      completed task, and once nothing is left to run it has been told. */
  lemma ScopeIsToldOnce(steps: Trace, mode: Mode, s: State)
    requires Runs(Initial(), steps, mode, s)
    ensures s.dones <= 1 && (s.dones == 1 ==> s.bits.completed)
    ensures Quiet(s) && s.bits.completed ==> s.dones == 1
  {
    ReachableInv(steps, mode, s);
    if Quiet(s) && s.bits.completed {
      QuietHoldsNothing(s);
    }
  }

  /** If marking and counting are one access, the count is the task's own reference, the queue's, and
      those being given up; the scope is acknowledged by one call, after completion, when no counted
      reference is left. */
  lemma AcknowledgedOnce(steps: Trace, s: State)
    requires Runs(Initial(), steps, Together, s)
    ensures s.refs == (if Finalized(s.bits, PollerPc(s.poller, s.workers)) then 0 else 1) + (if s.bits.queued then 1 else 0) + |s.clearing|
    ensures s.calls <= 1 && s.dones == s.calls
    ensures s.calls == 1 || s.ackers != {} ==> s.bits.completed && s.refs == 0 && s.token.None? && s.clearing == {}
    ensures Quiet(s) && s.bits.completed ==> s.calls == 1
  {
    ReachableInv(steps, Together, s);
    if Quiet(s) && s.bits.completed {
      QuietHoldsNothing(s);
    }
  }

  /** However they are grouped: once nothing is left to run, a completed task has been acknowledged by
      one call if and only if no waker counted its mark after the count had reached zero, and by two
      otherwise. */
  lemma CalledOnceIff(steps: Trace, mode: Mode, s: State)
    requires Runs(Initial(), steps, mode, s) && Quiet(s) && s.bits.completed
    ensures s.calls == 1 <==> s.late == 0
    ensures s.calls == 2 <==> s.late != 0
  {
    ReachableInv(steps, mode, s);
    QuietHoldsNothing(s);
  }

  lemma QuietHoldsNothing(s: State)
    requires Inv(s) && Quiet(s)
    ensures s.poller.None? && s.token.None? && s.clearing == {}
    ensures AckOk(s) ==> s.ackers == {}
  {
    forall t | t in s.workers
      ensures s.poller != Some(t) && s.token != Some(AtWorker(t)) && t !in s.clearing
    {
      assert OkAt(s, t);
    }
    forall t | t in s.wakers
      ensures s.token != Some(AtWaker(t))
    {
      assert WakerOk(t, s.wakers[t], s.token);
    }
  }

  // ---------------------------------------------------------------------------------------
  // Telling the scope while somebody has the task
  // ---------------------------------------------------------------------------------------

  /** Somebody other than `t` still has the task in hand: a waker that has marked it, the queue, or a
      worker anywhere between taking it out of the queue and being through with it, whether or not
      that worker still has a counted reference. (A waker that has not marked the task reaches it only
      under a wake guard, which the drop of the header waits for.) */
  ghost predicate Held(s: State, t: Tid) {
    s.token.Some? || exists u :: u in s.workers && u != t && !s.workers[u].Free?
  }

  /** The step tells the scope although somebody else has the task in hand. */
  ghost predicate TellsWhileHeld(s: State, step: Step) {
    && step.WorkStep? && step.t in s.workers && s.workers[step.t].Ack?
    && !s.bits.acked && Held(s, step.t)
  }

  /** No continuation contains such a step. */
  ghost predicate NeverTellsWhileHeld(s: State, mode: Mode) {
    forall steps, s', step :: Runs(s, steps, mode, s') && Enabled(s', step) ==> !TellsWhileHeld(s', step)
  }

  /** At most one worker is doing anything with the task. */
  ghost predicate OneWorker(s: State) {
    forall u, v :: u in s.workers && v in s.workers && !s.workers[u].Free? && !s.workers[v].Free? ==> u == v
  }

  /** A completed task on which at most one worker is left. */
  ghost predicate Abandoned(s: State) {
    s.bits.completed && s.token.None? && OneWorker(s)
  }

  lemma AbandonedWork(s: State, t: Tid, choice: bool, s': State)
    requires Abandoned(s) && t in s.workers && !s.workers[t].Free? && OkAt(s, t) && s' == DoWork(s, t, choice)
    ensures Abandoned(s')
  {
    assert s'.bits.completed && s'.token.None? by {
      match s.workers[t] {
        case Sub =>
        case EnterLoad =>
        case Enter(_) =>
        case Head =>
        case InPoll =>
        case PendCheck =>
        case ExitLoad =>
        case Exit(_) =>
        case SetResult =>
        case Complete =>
        case Dec =>
        case ExitPoll(_) =>
        case Ack =>
      }
    }
  }

  lemma AbandonedStays(s: State, step: Step, mode: Mode)
    requires Inv(s) && Abandoned(s) && Enabled(s, step)
    ensures Abandoned(Do(s, step, mode))
  {
    match step {
      case Wake(t) =>
      case WakeStep(t) => assert WakerOk(t, s.wakers[t], s.token);
      case WorkStep(t, choice) =>
        assert OkAt(s, t);
        AbandonedWork(s, t, choice, DoWork(s, t, choice));
      case Cancel =>
    }
  }

  lemma {:induction false} AbandonedRuns(s: State, steps: Trace, mode: Mode, s': State)
    requires Inv(s) && AckOk(s) && Abandoned(s) && Runs(s, steps, mode, s')
    ensures Abandoned(s')
    decreases steps
  {
    match steps {
      case Nil =>
      case Cons(step, rest) =>
        StepKeeps(s, step, mode);
        AbandonedStays(s, step, mode);
        AbandonedRuns(Do(s, step, mode), rest, mode, s');
    }
  }

  /** When the count is zero and the scope not told yet, the acknowledger can go ahead at once. */
  lemma AcknowledgerCanTell(s: State, mode: Mode) returns (steps: Trace, s': State, t: Tid)
    requires Inv(s) && AckOk(s) && s.refs == 0 && !s.bits.acked
    ensures Runs(s, steps, mode, s') && s'.token == s.token
    ensures t in s.workers && t in s'.workers && s'.workers == s.workers[t := s'.workers[t]]
    ensures s'.workers[t].Ack? && !s'.bits.acked && !s.workers[t].Free?
  {
    assert |s.ackers| > 0;
    t :| t in s.ackers;
    if s.workers[t].Ack? {
      steps, s' := Nil, s;
    } else {
      steps, s' := Cons(WorkStep(t, false), Nil), DoWork(s, t, false);
      assert Runs(s', Nil, mode, s');
    }
  }

  /** Once the count is zero, the scope may be told while somebody else has the task in hand unless the
      acknowledger is the only one left: the queued bit is clear, and no other worker is between taking
      the task out of the queue and being through with it. A set queued bit means that a waker has
      marked the task and not yet counted it. */
  lemma ToldWhileHeldIff(steps: Trace, mode: Mode, s: State)
    requires Runs(Initial(), steps, mode, s) && s.refs == 0 && !s.bits.acked
    ensures NeverTellsWhileHeld(s, mode) <==> !s.bits.queued && OneWorker(s)
    ensures s.bits.queued <==> Uncounted(s.token, s.wakers)
    ensures mode.Together? ==> !s.bits.queued
  {
    ReachableInv(steps, mode, s);
    if !s.bits.queued && OneWorker(s) {
      forall more, s', step | Runs(s, more, mode, s') && Enabled(s', step)
        ensures !TellsWhileHeld(s', step)
      {
        AbandonedRuns(s, more, mode, s');
      }
    } else {
      var more, s', t := AcknowledgerCanTell(s, mode);
      if !OneWorker(s) {
        var u :| u in s.workers && u != t && !s.workers[u].Free?;
        assert u in s'.workers && s'.workers[u] == s.workers[u];
      }
      assert Enabled(s', WorkStep(t, false)) && TellsWhileHeld(s', WorkStep(t, false));
    }
  }
}
